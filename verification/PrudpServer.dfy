/**
 * The server as it runs: client objects shared by tables, handlers and calls in progress, updated in
 * place. Every method is tied to the step of the same name in module Server.
 */
module PrudpServers {
  import opened Basics
  import opened Packets
  import opened Datagrams
  import opened Kerberos
  import opened Server
  import opened Frames
  import opened Runs
  import opened Reassembly
  import Rc4

  // ---- reassembly loops ----

  /** The bytes buffered in fragments other than `id`. */
  method SumOthers(fragments: map<byte, seq<byte>>, id: byte) returns (n: nat)
    ensures n == Buffered(fragments - {id}, 256)
  {
    n := 0;
    var left := fragments.Keys;
    ghost var added: map<byte, seq<byte>> := map[];
    NothingBuffered(256);
    while left != {}
      invariant left <= fragments.Keys && added == (map k | k in fragments && k !in left && k != id :: fragments[k])
      invariant n == Buffered(added, 256)
      decreases |left|
    {
      var k :| k in left;
      left := left - {k};
      if k != id {
        BufferedUpdate(added, k, fragments[k], 256);
        assert added - {k} == added;
        n := n + |fragments[k]|;
        added := added[k := fragments[k]];
      }
    }
    assert added == fragments - {id};
  }

  /** Joins the fragments 1 to the size of the buffer, and the last one. */
  method Reassemble(fragments: map<byte, seq<byte>>, last: seq<byte>) returns (message: Option<seq<byte>>)
    requires 0 !in fragments
    ensures message == Assemble(fragments, last)
  {
    FewKeys(fragments, 255);
    var parts: seq<byte> := [];
    for fid := 1 to |fragments| + 1
      invariant Joined(fragments, fid - 1) == Some(parts)
    {
      if fid !in fragments {
        MissingPart(fragments, fid, |fragments|);
        return None;
      }
      parts := parts + fragments[fid];
    }
    message := Some(parts + last);
  }

  lemma {:induction false} MissingPart(fragments: map<byte, seq<byte>>, k: nat, n: nat)
    requires 1 <= k <= n < 256 && k !in fragments
    ensures Joined(fragments, n).None?
    decreases n
  {
    if k < n {
      MissingPart(fragments, k, n - 1);
    }
  }

  // ---- clients ----

  class ClientInfo {
    const address: Address
    const serverSignature: u32
    /** The position of this client in the history of the server. */
    ghost const index: nat
    var clientSignature: Option<u32>
    var serverSequenceId: u16
    var clientSequenceId: u16
    var serverSession: byte
    var clientSession: byte
    var packetFragments: map<byte, seq<byte>>
    var lastSeen: int
    var connectionId: Option<u32>
    var userId: Option<u32>

    constructor (address: Address, signature: u32, now: int, ghost index: nat)
      ensures Value() == NewClient(address, signature, now)
      ensures this.index == index && serverSignature == signature
    {
      this.address, serverSignature, this.index := address, signature, index;
      clientSignature, connectionId, userId := None, None, None;
      serverSequenceId, clientSequenceId := 1, 1;
      serverSession, clientSession := 0, 0;
      packetFragments := map[];
      lastSeen := now;
    }

    ghost function Value(): Client
      reads this
    {
      Client(address, serverSignature, clientSignature, serverSequenceId, clientSequenceId, serverSession,
             clientSession, packetFragments, lastSeen, connectionId, userId)
    }
  }

  datatype StreamCall = StreamCall(client: ClientInfo, from: Address, source: VPort, destination: VPort)

  datatype Datagram = Datagram(to: Address, data: seq<byte>)

  function Outbox(sent: seq<Sent>): seq<Datagram> {
    if sent == [] then [] else
    Outbox(sent[..|sent| - 1]) + [Datagram(sent[|sent| - 1].to, sent[|sent| - 1].data)]
  }

  lemma OutboxSnoc(sent: seq<Sent>, x: Sent)
    ensures Outbox(sent + [x]) == Outbox(sent) + [Datagram(x.to, x.data)]
  {
    assert (sent + [x])[..|sent|] == sent;
  }

  /** How often each client was reported. */
  ghost function Reports(cs: seq<ClientInfo>): multiset<nat> {
    if cs == [] then multiset{} else Reports(cs[..|cs| - 1]) + multiset{cs[|cs| - 1].index}
  }

  lemma ReportsSnoc(cs: seq<ClientInfo>, c: ClientInfo)
    ensures Reports(cs + [c]) == Reports(cs) + multiset{c.index}
  {
    assert (cs + [c])[..|cs|] == cs;
  }

  // ---- the server ----

  class PrudpServer {
    const ctx: Context
    const ports: set<byte>
    var newClients: map<u32, ClientInfo>
    var clients: map<u32, ClientInfo>
    var connectionIds: map<u32, u32>
    var nextConnectionId: u32
    /** Handlers that have not answered yet, and the datagrams handed to the transport. */
    var pending: seq<StreamCall>
    var outbox: seq<Datagram>
    /** The calls of the two callbacks. */
    var disconnected: seq<ClientInfo>
    var expired: seq<ClientInfo>
    /** Every client there ever was, and the abstract state. */
    ghost var objects: seq<ClientInfo>
    ghost var state: State

    ghost predicate Knows(c: ClientInfo)
      reads `objects
    {
      c.index < |objects| && objects[c.index] == c
    }

    ghost predicate Lists(table: map<u32, ClientInfo>, indices: map<u32, nat>)
      reads `objects
    {
      && table.Keys == indices.Keys
      && forall sig :: sig in table ==>
           Knows(table[sig]) && table[sig].serverSignature == sig && indices[sig] == table[sig].index
    }

    ghost predicate ObjectsAgree(cs: seq<Client>)
      reads `objects, objects
    {
      && |objects| == |cs|
      && forall i :: 0 <= i < |objects| ==>
           objects[i].index == i && objects[i].Value() == cs[i] && 0 !in objects[i].packetFragments
    }

    ghost predicate CallsAgree(calls: seq<StreamCall>, specs: seq<Call>)
      reads `objects
    {
      && |calls| == |specs|
      && forall k :: 0 <= k < |calls| ==> Knows(calls[k].client) && specs[k] == Denoted(calls[k])
    }

    /** The fields and the clients are what `s` says. */
    ghost predicate Agrees(s: State)
      reads `newClients, `clients, `connectionIds, `nextConnectionId, `pending, `outbox,
            `disconnected, `expired, `objects, objects
      ensures Agrees(s) ==> Closed(s) && |objects| == |s.objects|
    {
      && ObjectsAgree(s.objects)
      && Lists(newClients, s.newClients) && Lists(clients, s.clients)
      && connectionIds == s.connectionIds && nextConnectionId == s.nextConnectionId
      && CallsAgree(pending, s.pending)
      && outbox == Outbox(s.sent)
      && Reports(disconnected) == s.disconnected && Reports(expired) == s.expired
    }

    /** With a cipher key of another length, serialising would throw in the middle of a step. */
    ghost predicate Valid()
      reads this, objects
    {
      Agrees(state) && Rc4.ValidKey(ctx.cryptoKey)
    }

    lemma KnownValue(c: ClientInfo)
      requires Valid() && Knows(c)
      ensures c.index < |state.objects| && state.objects[c.index] == c.Value()
    {}

    /** Only what the fields represent has to agree; the rest of the state is history. */
    lemma SameFields(s: State, t: State)
      requires Agrees(s) && t.objects == s.objects && t.newClients == s.newClients && t.clients == s.clients
      requires t.connectionIds == s.connectionIds && t.nextConnectionId == s.nextConnectionId
      requires t.pending == s.pending && t.sent == s.sent
      requires t.disconnected == s.disconnected && t.expired == s.expired
      ensures Agrees(t)
    {}

    constructor (ctx: Context, ports: set<byte>)
      requires Rc4.ValidKey(ctx.cryptoKey)
      ensures Valid() && state == Initial() && this.ctx == ctx && this.ports == ports && objects == []
    {
      this.ctx, this.ports := ctx, ports;
      newClients, clients, connectionIds := map[], map[], map[];
      nextConnectionId := FIRST_CONNECTION_ID;
      pending, outbox, disconnected, expired := [], [], [], [];
      objects, state := [], Initial();
    }

    // ---- sending ----

    method SendPacket(client: ClientInfo, to: Address, p: QPacket, ghost kind: Kind)
      requires Valid() && Knows(client)
      modifies this`outbox, this`state
      ensures Valid() && state == Server.SendPacket(ctx, old(state), client.index, kind, to, p)
    {
      hide Serialize, ObjectsAgree, Lists, CallsAgree, Reports, Outbox;
      var packet := p;
      if packet.packetType == DATA {
        packet := packet.(useCompression := true);
        if packet.fragmentId.None? {
          packet := packet.(fragmentId := Some(0));
        }
      }
      packet := packet.(flags := WithHasSize(packet.flags));
      var data := ToBytes(ctx, packet);
      state := Server.SendPacket(ctx, state, client.index, kind, to, p);
      if data.Ok? {
        outbox := outbox + [Datagram(to, data.value)];
        OutboxSnoc(old(state).sent, Sent(client.index, kind, to, packet, data.value));
      }
    }

    method SendAck(to: Address, p: QPacket, client: ClientInfo, keepPayload: bool)
      requires Valid() && Knows(client)
      modifies this`outbox, this`state
      ensures Valid() && state == Server.SendAck(ctx, old(state), to, p, client.index, keepPayload)
    {
      var ack := p.(source := p.destination, destination := p.source, flags := 9);
      ack := ack.(signature := if client.clientSignature.Some? then client.clientSignature.value else 0);
      ack := ack.(sessionId := client.serverSession);
      if !keepPayload {
        ack := ack.(payload := []);
      }
      assert ack == AckPacket(p, state.objects[client.index], keepPayload);
      SendPacket(client, to, ack, Ack);
    }

    /** Numbers a response packet and sends it. */
    method SendResponse(call: StreamCall, response: seq<byte>, i: nat)
      requires Valid() && Knows(call.client) && i < FragmentCount(|response|)
      modifies this`outbox, this`state, call.client`serverSequenceId
      ensures Valid()
      ensures state == SendFragment(ctx, old(state), Denoted(call), response, i)
    {
      hide Server.SendPacket, Chunk, Agrees;
      var client := call.client;
      var packet := QPacket(call.destination, call.source, DATA, Reliable(0), client.serverSession,
                            if client.clientSignature.Some? then client.clientSignature.value else 0,
                            client.serverSequenceId, Some(FragmentCount(|response|) - 1 - i), None,
                            Chunk(response, i), 0, false);
      KnownValue(client);
      NextResponse(client);
      SendPacket(client, call.from, packet, Response);
    }

    method NextResponse(client: ClientInfo)
      requires Valid() && Knows(client)
      modifies this`state, client`serverSequenceId
      ensures Valid()
      ensures var c := old(state).objects[client.index];
              state == Update(old(state), client.index, c.(serverSequenceId := (c.serverSequenceId + 1) % 0x1_0000))
    {
      client.serverSequenceId := (client.serverSequenceId + 1) % 0x1_0000;
      state := Update(state, client.index, client.Value());
    }

    static ghost function Denoted(call: StreamCall): Call {
      Call(call.client.index, call.from, call.source, call.destination)
    }

    method SendMessage(call: StreamCall, response: seq<byte>)
      requires Valid() && Knows(call.client)
      modifies this`outbox, this`state, call.client`serverSequenceId
      ensures Valid() && state == Server.SendMessage(ctx, old(state), Denoted(call), response)
    {
      hide SendFragment, Agrees;
      var count := (|response| + MAX_PAYLOAD_SIZE - 1) / MAX_PAYLOAD_SIZE;
      for i := 0 to count
        invariant Valid() && state == SendFragments(ctx, old(state), Denoted(call), response, i)
      {
        SendResponse(call, response, i);
      }
      if response != [] {
        SameFields(state, state.(messages := state.messages + [Message(call.client.index, response)]));
        state := state.(messages := state.messages + [Message(call.client.index, response)]);
      }
    }

    method NextRequest(client: ClientInfo)
      requires Valid() && Knows(client)
      modifies this`state, client`clientSequenceId
      ensures Valid()
      ensures var c := old(state).objects[client.index];
              state == Update(old(state), client.index, c.(clientSequenceId := (c.clientSequenceId + 1) % 0x1_0000))
    {
      client.clientSequenceId := (client.clientSequenceId + 1) % 0x1_0000;
      state := Update(state, client.index, client.Value());
    }

    method SendRequest(client: ClientInfo, p: QPacket)
      requires Valid() && Knows(client)
      modifies this`outbox, this`state, client`clientSequenceId
      ensures Valid() && state == Server.SendRequest(ctx, old(state), client.index, p)
    {
      hide Server.SendPacket, Serialize, Outgoing, Agrees;
      KnownValue(client);
      var packet := p.(sequence := client.clientSequenceId, flags := Reliable(p.flags),
                       signature := client.serverSignature, sessionId := client.clientSession);
      assert packet == RequestPacket(state.objects[client.index], p);
      NextRequest(client);
      if Serialize(ctx, Outgoing(packet)).Ok? {
        SameFields(state, state.(messages := state.messages + [Message(client.index, p.payload)]));
        state := state.(messages := state.messages + [Message(client.index, p.payload)]);
      }
      SendPacket(client, client.address, packet, ServerRequest);
    }

    // ---- single changes ----

    method See(client: ClientInfo, now: int)
      requires Valid() && Knows(client)
      modifies `state, client`lastSeen
      ensures Valid()
      ensures state == Update(old(state), client.index, old(state).objects[client.index].(lastSeen := now))
    {
      client.lastSeen := now;
      state := Update(state, client.index, client.Value());
    }

    method SetFragments(client: ClientInfo, fragments: map<byte, seq<byte>>)
      requires Valid() && Knows(client) && 0 !in fragments
      modifies `state, client`packetFragments
      ensures Valid()
      ensures state == Update(old(state), client.index, old(state).objects[client.index].(packetFragments := fragments))
    {
      client.packetFragments := fragments;
      state := Update(state, client.index, client.Value());
    }

    method Create(from: Address, signature: u32, now: int) returns (client: ClientInfo)
      requires Valid()
      modifies `objects, `state
      ensures Valid() && fresh(client) && objects == old(objects) + [client]
      ensures Knows(client) && client.index == |old(objects)| && client.serverSignature == signature
      ensures state == old(state).(objects := old(state).objects + [NewClient(from, signature, now)])
    {
      hide Outbox, Reports;
      client := new ClientInfo(from, signature, now, |objects|);
      objects := objects + [client];
      state := state.(objects := state.objects + [NewClient(from, signature, now)]);
    }

    method Enlist(client: ClientInfo, signature: u32)
      requires Valid() && Knows(client) && client.serverSignature == signature
      modifies `newClients, `state
      ensures Valid() && state == old(state).(newClients := old(state).newClients[signature := client.index])
    {
      hide ObjectsAgree, CallsAgree, Outbox, Reports;
      newClients := newClients[signature := client];
      state := state.(newClients := state.newClients[signature := client.index]);
    }

    /** Moves a client from one table to the other; its CONNECT tells what it is called from now on. */
    method Promote(client: ClientInfo, signature: u32, clientSignature: u32, serverSession: byte, clientSession: byte)
      requires Valid() && Knows(client) && client.serverSignature == signature
      modifies `newClients, `clients, `state, client`clientSignature, client`serverSession, client`clientSession
      ensures Valid()
      ensures var c := old(state).objects[client.index];
              state == old(state).(objects := old(state).objects[client.index :=
                                     c.(clientSignature := Some(clientSignature), serverSession := serverSession,
                                        clientSession := clientSession)],
                                   newClients := old(state).newClients - {signature},
                                   clients := old(state).clients[signature := client.index])
    {
      hide Agrees;
      Unlist(signature);
      Introduce(client, clientSignature, serverSession, clientSession);
      Admit(client, signature);
    }

    method Unlist(signature: u32)
      requires Valid()
      modifies `newClients, `state
      ensures Valid() && state == old(state).(newClients := old(state).newClients - {signature})
      ensures newClients == old(newClients) - {signature}
    {
      hide ObjectsAgree, CallsAgree, Outbox, Reports;
      newClients := newClients - {signature};
      state := state.(newClients := state.newClients - {signature});
    }

    method Admit(client: ClientInfo, signature: u32)
      requires Valid() && Knows(client) && client.serverSignature == signature
      modifies `clients, `state
      ensures Valid() && state == old(state).(clients := old(state).clients[signature := client.index])
    {
      hide ObjectsAgree, CallsAgree, Outbox, Reports;
      clients := clients[signature := client];
      state := state.(clients := state.clients[signature := client.index]);
    }

    method Introduce(client: ClientInfo, clientSignature: u32, serverSession: byte, clientSession: byte)
      requires Valid() && Knows(client)
      modifies `state, client`clientSignature, client`serverSession, client`clientSession
      ensures Valid()
      ensures var c := old(state).objects[client.index];
              state == Update(old(state), client.index,
                              c.(clientSignature := Some(clientSignature), serverSession := serverSession,
                                 clientSession := clientSession))
    {
      hide Agrees;
      SetSignature(client, clientSignature);
      SetSessions(client, serverSession, clientSession);
    }

    method SetSignature(client: ClientInfo, clientSignature: u32)
      requires Valid() && Knows(client)
      modifies `state, client`clientSignature
      ensures Valid()
      ensures var c := old(state).objects[client.index];
              state == Update(old(state), client.index, c.(clientSignature := Some(clientSignature)))
    {
      hide Lists, CallsAgree, Outbox, Reports;
      client.clientSignature := Some(clientSignature);
      state := Update(state, client.index, client.Value());
    }

    method SetSessions(client: ClientInfo, serverSession: byte, clientSession: byte)
      requires Valid() && Knows(client)
      modifies `state, client`serverSession, client`clientSession
      ensures Valid()
      ensures var c := old(state).objects[client.index];
              state == Update(old(state), client.index,
                              c.(serverSession := serverSession, clientSession := clientSession))
    {
      hide Lists, CallsAgree, Outbox, Reports;
      client.serverSession, client.clientSession := serverSession, clientSession;
      state := Update(state, client.index, client.Value());
    }

    method LogIn(client: ClientInfo, userId: u32, connectionId: u32)
      requires Valid() && Knows(client)
      modifies `state, client`userId, client`connectionId
      ensures Valid()
      ensures var c := old(state).objects[client.index];
              state == Update(old(state), client.index, c.(userId := Some(userId), connectionId := Some(connectionId)))
      ensures client.userId == Some(userId) && client.connectionId == Some(connectionId)
    {
      hide Lists, CallsAgree, Outbox, Reports;
      client.userId, client.connectionId := Some(userId), Some(connectionId);
      state := Update(state, client.index, client.Value());
    }

    /** Gives a client the next connection id and the user of its ticket. */
    method Grant(client: ClientInfo, signature: u32, userId: u32)
      requires Valid() && Knows(client)
      modifies `connectionIds, `nextConnectionId, `state, client`userId, client`connectionId
      ensures Valid()
      ensures var id, c := old(state).nextConnectionId, old(state).objects[client.index];
              state == old(state).(objects := old(state).objects[client.index :=
                                     c.(userId := Some(userId), connectionId := Some(id))],
                                   connectionIds := old(state).connectionIds[id := signature],
                                   nextConnectionId := (id + 1) % 0x1_0000_0000, accepted := old(state).accepted + 1)
      ensures client.userId == Some(userId) && client.connectionId == Some(old(nextConnectionId))
      ensures connectionIds == old(connectionIds)[old(nextConnectionId) := signature]
      ensures nextConnectionId == (old(nextConnectionId) + 1) % 0x1_0000_0000
    {
      hide ObjectsAgree, Lists, CallsAgree, Outbox, Reports;
      var connectionId := nextConnectionId;
      nextConnectionId := (nextConnectionId + 1) % 0x1_0000_0000;
      state := state.(nextConnectionId := nextConnectionId, accepted := state.accepted + 1);
      LogIn(client, userId, connectionId);
      connectionIds := connectionIds[connectionId := signature];
      state := state.(connectionIds := connectionIds);
    }

    method RemoveClient(signature: u32, client: ClientInfo)
      requires Valid() && signature in clients && clients[signature] == client
      modifies `clients, `connectionIds, `state
      ensures Valid() && state == Server.RemoveClient(old(state), signature)
      ensures clients == old(clients) - {signature}
    {
      hide ObjectsAgree, CallsAgree, Outbox, Reports;
      KnownValue(client);
      clients := clients - {signature};
      if client.connectionId.Some? {
        connectionIds := connectionIds - {client.connectionId.value};
      }
      state := Server.RemoveClient(state, signature);
    }

    // ---- packets ----

    method HandleSyn(p: QPacket, from: Address, env: Env)
      requires Valid()
      modifies `newClients, `objects, `outbox, `state
      ensures Valid() && |objects| == |old(objects)| + 1 && objects[..|old(objects)|] == old(objects)
      ensures fresh(objects[|old(objects)|])
      ensures state == Server.HandleSyn(ctx, old(state), p, from, env)
    {
      hide Agrees, Server.SendAck;
      var client := Create(from, env.signature, env.now);
      Enlist(client, client.serverSignature);
      SendAck(from, p.(connSignature := Some(env.signature)), client, false);
    }

    /** Fails after the login when only the challenge cannot be read. */
    method AcceptTicket(client: ClientInfo, signature: u32, data: seq<byte>, now: int) returns (r: Result<seq<byte>>)
      requires Valid() && Knows(client)
      modifies `connectionIds, `nextConnectionId, `state, client`userId, client`connectionId
      ensures Valid()
      ensures (state, (if r.Ok? then r.value else [])) ==
              Server.AcceptTicket(ctx, old(state), client.index, signature, data, now)
      ensures var ticket := PresentedTicket(ctx, data);
              var accepted := ticket.Ok? && now < 1000 * (ticket.value.validUntil + 1);
              var id := old(nextConnectionId);
              && client.userId == (if accepted then Some(ticket.value.principleId) else old(client.userId))
              && client.connectionId == (if accepted then Some(id) else old(client.connectionId))
              && connectionIds == (if accepted then old(connectionIds)[id := signature] else old(connectionIds))
              && nextConnectionId == (if accepted then (id + 1) % 0x1_0000_0000 else id)
    {
      hide Agrees, OpenTicket, Rc4.Crypt, ParseConnectData, SplitTicket;
      var parts :- SplitTicket(data);
      var internal :- OpenTicket(ctx.box, parts.0, ctx.ticketKey);
      if internal.validUntil < now / 1000 {
        return Ok([]);
      }
      Grant(client, signature, internal.principleId);
      var plain :- Rc4.CryptKey(internal.sessionKey, parts.1);
      var connectData :- ParseConnectData(plain);
      r := Ok(Le(4, 4) + Le((connectData.challenge + 1) % 0x1_0000_0000, 4));
    }

    method HandleConnect(p: QPacket, from: Address, env: Env)
      requires Valid()
      modifies `newClients, `clients, `connectionIds, `nextConnectionId, `outbox, `state, objects
      ensures Valid() && state == Server.HandleConnect(ctx, old(state), p, from, env)
    {
      hide Server.SendAck, Server.AcceptTicket, ObjectsAgree, CallsAgree, Outbox, Reports;
      if p.connSignature.None? || p.signature !in newClients {
        return;
      }
      var client := newClients[p.signature];
      Promote(client, p.signature, p.connSignature.value, env.session, p.sessionId);
      var payload: seq<byte> := [];
      if |p.payload| > 0 {
        var reply := AcceptTicket(client, p.signature, p.payload, env.now);
        if reply.Ok? {
          payload := reply.value;
        }
      }
      SendAck(from, p.(connSignature := Some(0), payload := payload), client, |payload| > 0);
    }

    /** A complete message goes to the handler of its port; only that decides what is sent, and when. */
    method Deliver(p: QPacket, from: Address, client: ClientInfo, payload: seq<byte>, env: Env)
      requires Valid() && Knows(client)
      modifies `pending, `outbox, `state, client`serverSequenceId
      ensures Valid() && state == Server.Deliver(ctx, old(state), ports, p, from, client.index, payload, env)
    {
      hide ObjectsAgree, Lists, Outbox, Reports, Server.SendMessage;
      if VPortToByte(p.destination) !in ports {
        return;
      }
      var call := StreamCall(client, from, p.source, p.destination);
      state := state.(deliveries := state.deliveries + [Delivery(client.index, payload)]);
      var reply := env.handler(payload);
      match reply {
        case Throws =>
        case Returns(response) => SendMessage(call, response);
        case Promises =>
          pending := pending + [call];
          state := state.(pending := state.pending + [Denoted(call)]);
      }
    }

    /** Buffers a fragment, unless the buffer would get too large with it. */
    method CacheFragment(client: ClientInfo, id: byte, data: seq<byte>)
      requires Valid() && Knows(client) && id != 0
      modifies `state, client`packetFragments
      ensures Valid()
      ensures var c := old(state).objects[client.index];
              state == Update(old(state), client.index, c.(packetFragments := Store(c.packetFragments, id, data)))
    {
      hide Lists, CallsAgree, Outbox, Reports, Buffered;
      var buffered := SumOthers(client.packetFragments, id);
      if buffered + |data| > MAX_REASSEMBLED_SIZE {
        SetFragments(client, map[]);
      } else {
        SetFragments(client, client.packetFragments[id := data]);
      }
    }

    /** Empties the buffer, whether its fragments complete a message or not. */
    method TakeMessage(client: ClientInfo, last: seq<byte>) returns (message: Option<seq<byte>>)
      requires Valid() && Knows(client)
      modifies `state, client`packetFragments
      ensures Valid()
      ensures var c := old(state).objects[client.index];
              && message == Assemble(c.packetFragments, last)
              && state == Update(old(state), client.index, c.(packetFragments := map[]))
    {
      hide Lists, CallsAgree, Outbox, Reports, Assemble;
      message := Reassemble(client.packetFragments, last);
      SetFragments(client, map[]);
    }

    method HandleData(p: QPacket, from: Address, env: Env)
      requires Valid()
      modifies `pending, `outbox, `state, objects
      ensures Valid() && state == Server.HandleData(ctx, old(state), ports, p, from, env)
    {
      hide ObjectsAgree, CallsAgree, Outbox, Reports, Server.SendPacket, Server.Deliver, Store, Assemble;
      if p.signature !in clients {
        return;
      }
      var client := clients[p.signature];
      See(client, env.now);
      SendAck(from, p, client, false);
      AckFrame(ctx, Update(old(state), client.index, old(state).objects[client.index].(lastSeen := env.now)), from, p,
               client.index, false);
      var payload := p.payload;
      if p.fragmentId.Some? {
        var id := p.fragmentId.value % 256;
        if id != 0 {
          CacheFragment(client, id, payload);
          return;
        }
        var message := TakeMessage(client, payload);
        if message.None? {
          return;
        }
        payload := message.value;
      }
      Deliver(p, from, client, payload, env);
    }

    method HandleDisconnect(p: QPacket, from: Address)
      requires Valid()
      modifies `clients, `connectionIds, `outbox, `disconnected, `state
      ensures Valid() && state == Server.HandleDisconnect(ctx, old(state), p, from)
    {
      hide ObjectsAgree, CallsAgree, Outbox, Reports, Server.SendAck, Server.RemoveClient;
      if p.signature !in clients {
        return;
      }
      var client := clients[p.signature];
      RemoveClient(p.signature, client);
      SendAck(from, p, client, false);
      OnDisconnect(client);
    }

    method OnDisconnect(client: ClientInfo)
      requires Valid()
      modifies `disconnected, `state
      ensures Valid() && state == old(state).(disconnected := old(state).disconnected + multiset{client.index})
    {
      hide ObjectsAgree, Lists, CallsAgree, Outbox, Reports;
      ReportsSnoc(disconnected, client);
      disconnected := disconnected + [client];
      state := state.(disconnected := state.disconnected + multiset{client.index});
    }

    method OnExpiredClient(client: ClientInfo)
      requires Valid()
      modifies `expired, `state
      ensures Valid() && state == old(state).(expired := old(state).expired + multiset{client.index})
    {
      hide ObjectsAgree, Lists, CallsAgree, Outbox, Reports;
      ReportsSnoc(expired, client);
      expired := expired + [client];
      state := state.(expired := state.expired + multiset{client.index});
    }

    method HandlePing(p: QPacket, from: Address, now: int)
      requires Valid()
      modifies `outbox, `state, objects
      ensures Valid() && state == Server.HandlePing(ctx, old(state), p, from, now)
    {
      hide ObjectsAgree, CallsAgree, Outbox, Reports, Server.SendAck;
      if p.signature !in clients {
        return;
      }
      var client := clients[p.signature];
      See(client, now);
      SendAck(from, p, client, false);
    }

    method HandlePacket(p: QPacket, from: Address, env: Env)
      requires Valid()
      modifies this, objects
      ensures Valid() && |old(objects)| <= |objects| && objects[..|old(objects)|] == old(objects)
      ensures forall i :: |old(objects)| <= i < |objects| ==> fresh(objects[i])
      ensures state == Server.HandlePacket(ctx, ports, old(state), p, from, env)
    {
      hide Agrees, Server.HandleSyn, Server.HandleConnect, Server.HandleData;
      hide Server.HandleDisconnect, Server.HandlePing;
      if IsAck(p) {
        return;
      }
      match p.packetType {
        case 0 => HandleSyn(p, from, env);
        case 1 => HandleConnect(p, from, env);
        case 2 => HandleData(p, from, env);
        case 3 => HandleDisconnect(p, from);
        case 4 => HandlePing(p, from, env.now);
        case _ =>
      }
    }
    // ---- the timer ----

    method ExpireOne(signature: u32, client: ClientInfo)
      requires Valid() && signature in clients && clients[signature] == client
      modifies `clients, `connectionIds, `expired, `state
      ensures Valid() && clients == old(clients) - {signature}
      ensures signature in old(state).clients && state == Expired(old(state), signature)
    {
      hide ObjectsAgree, CallsAgree, Outbox, Reports;
      RemoveClient(signature, client);
      OnExpiredClient(client);
    }

    lemma Lookup(signature: u32)
      requires Valid()
      ensures signature in clients <==> signature in state.clients
      ensures signature in clients ==>
                var client := clients[signature];
                && Knows(client) && state.clients[signature] == client.index
                && state.objects[client.index] == client.Value() && client.serverSignature == signature
    {}

    method ExpireIfSilent(signature: u32, now: int)
      requires Valid() && signature in clients
      modifies `clients, `connectionIds, `expired, `state
      ensures Valid() && old(clients).Keys - {signature} <= clients.Keys
      ensures signature in old(state).clients && state == AfterCheck(old(state), signature, now)
    {
      hide Agrees, Server.RemoveClient;
      var client := clients[signature];
      Lookup(signature);
      if now - client.lastSeen > SESSION_TIMEOUT_MS {
        ExpireOne(signature, client);
      }
    }

    method ExpireConnected(now: int)
      requires Valid()
      modifies `clients, `connectionIds, `expired, `state
      ensures Valid() && state == WithoutClients(old(state), SilentAmong(old(state), old(state).clients.Keys, now))
    {
      hide Agrees, WithoutClients, AfterCheck, SilentAmong;
      ghost var s := state;
      var left := clients.Keys;
      NoneExpired(s, now);
      OwnTable();
      assert s.clients.Keys - left == {};
      while left != {}
        invariant Valid() && OwnSignatures(s) && left <= clients.Keys && left <= s.clients.Keys
        invariant state == WithoutClients(s, SilentAmong(s, s.clients.Keys - left, now))
        decreases |left|
      {
        var signature :| signature in left;
        OneMoreChecked(s, left, signature, now);
        left := left - {signature};
        ExpireIfSilent(signature, now);
      }
      assert s.clients.Keys - left == s.clients.Keys;
    }

    lemma OwnTable()
      requires Valid()
      ensures OwnSignatures(state) && clients.Keys == state.clients.Keys && newClients.Keys == state.newClients.Keys
    {}

    method DropIfSilent(signature: u32, now: int)
      requires Valid() && signature in newClients
      modifies `newClients, `state
      ensures Valid() && old(newClients).Keys - {signature} <= newClients.Keys
      ensures signature in old(state).newClients && state == AfterDrop(old(state), signature, now)
    {
      hide Agrees;
      LookupWaiting(signature);
      if now - newClients[signature].lastSeen > SESSION_TIMEOUT_MS {
        Unlist(signature);
      }
    }

    method ExpireWaiting(now: int)
      requires Valid()
      modifies `newClients, `state
      ensures Valid() && state == WithoutWaiting(old(state), old(state).newClients.Keys, now)
    {
      hide Agrees, WithoutWaiting, AfterDrop;
      ghost var s := state;
      var left := newClients.Keys;
      OwnTable();
      NoneDropped(s, now);
      assert s.newClients.Keys - left == {};
      while left != {}
        invariant Valid() && left <= newClients.Keys && left <= s.newClients.Keys
        invariant state == WithoutWaiting(s, s.newClients.Keys - left, now)
        decreases |left|
      {
        var signature :| signature in left;
        OneMoreDropped(s, left, signature, now);
        left := left - {signature};
        DropIfSilent(signature, now);
      }
      assert s.newClients.Keys - left == s.newClients.Keys;
    }

    lemma LookupWaiting(signature: u32)
      requires Valid() && signature in newClients
      ensures signature in state.newClients
      ensures state.objects[state.newClients[signature]] == newClients[signature].Value()
    {}

    method ClearExpiredClients(now: int)
      requires Valid()
      modifies `newClients, `clients, `connectionIds, `expired, `state
      ensures Valid() && state == ExpireClients(old(state), now)
    {
      hide Agrees, ExpireClients, WithoutClients, SilentAmong, WithoutWaiting;
      ExpireSplits(state, now);
      ExpireConnected(now);
      ExpireWaiting(now);
    }

    // ---- other events ----

    /** A promise of a handler is settled: fulfilled with a response, or rejected. */
    method Settle(k: nat, response: Option<seq<byte>>)
      requires Valid() && k < |pending|
      modifies `pending, `outbox, `state, objects
      ensures Valid() && state == Complete(ctx, old(state), k, response)
    {
      hide ObjectsAgree, Lists, Outbox, Reports, Server.SendMessage;
      var call := pending[k];
      pending := pending[..k] + pending[k + 1..];
      state := state.(pending := state.pending[..k] + state.pending[k + 1..]);
      if response.Some? {
        SendMessage(call, response.value);
      }
    }

    /** What the authentication service does when a login succeeds. */
    method SetUser(client: ClientInfo, userId: u32)
      requires Valid() && Knows(client)
      modifies `state, client`userId
      ensures Valid() && state == Step(ctx, ports, old(state), LoggedIn(client.index, userId))
    {
      hide Lists, CallsAgree, Outbox, Reports;
      client.userId := Some(userId);
      state := Update(state, client.index, client.Value());
    }

    method FindByConnectionId(connectionId: u32) returns (client: Option<ClientInfo>)
      requires Valid()
      ensures ClientByConnectionId(state, connectionId) == if client.Some? then Some(client.value.index) else None
      ensures client.Some? ==> Knows(client.value)
    {
      if connectionId !in connectionIds || connectionIds[connectionId] !in clients {
        return None;
      }
      return Some(clients[connectionIds[connectionId]]);
    }

    // ---- datagrams ----

    /** Handles the packets of a datagram in order, up to the first that cannot be parsed, without the invalid ones. */
    method HandleDatagram(data: seq<byte>, from: Address, envs: nat -> Env)
      requires Valid()
      modifies this, objects
      ensures Valid()
      ensures state == Run(ctx, ports, old(state), Arrivals(Split(ctx, data), from, envs))
    {
      hide Agrees, Step, Server.HandlePacket, Parse, ChecksumMatches, Split, Run, Arrivals;
      var offset := 0;
      ghost var done: seq<QPacket> := [];
      var count := 0;
      assert data[0..] == data && [] + Split(ctx, data) == Split(ctx, data);
      NoArrivals(ctx, ports, state, from, envs);
      while offset < |data|
        invariant offset <= |data| && count == |done|
        invariant Valid() && |old(objects)| <= |objects| && objects[..|old(objects)|] == old(objects)
        invariant forall i :: |old(objects)| <= i < |objects| ==> fresh(objects[i])
        invariant done + Split(ctx, data[offset..]) == Split(ctx, data)
        invariant state == Run(ctx, ports, old(state), Arrivals(done, from, envs))
        decreases |data| - offset
      {
        SplitStep(ctx, data, offset, done);
        var parsed := FromBytes(ctx, data[offset..]);
        if parsed.Err? {
          return;
        }
        var (packet, size) := parsed.value;
        var raw := data[offset..][..size];
        offset := offset + size;
        var valid := Validate(ctx, packet, raw);
        if valid {
          ArrivalsSnoc(ctx, ports, old(state), done, packet, from, envs);
          HandlePacket(packet, from, envs(count));
          done := done + [packet];
          count := count + 1;
        }
      }
      SplitNothing(ctx, data, done);
    }
  }

  lemma SplitNothing(ctx: Context, data: seq<byte>, done: seq<QPacket>)
    ensures done + Split(ctx, data[|data|..]) == done
  {}

  /** What one pass of the loop does to what is done and what is left. */
  lemma SplitStep(ctx: Context, data: seq<byte>, offset: nat, done: seq<QPacket>)
    requires offset < |data|
    ensures var rest := data[offset..];
            if Parse(ctx, rest).Err? then done + Split(ctx, rest) == done else
            var p, n := Parse(ctx, rest).value.0, Parse(ctx, rest).value.1;
            done + Split(ctx, rest) ==
            (if ChecksumMatches(ctx, p, rest[..n]) then done + [p] else done) + Split(ctx, data[offset + n..])
  {
    hide Parse, ChecksumMatches;
    var rest := data[offset..];
    if Parse(ctx, rest).Ok? {
      var (p, n) := Parse(ctx, rest).value;
      assert rest[n..] == data[offset + n..];
      Assoc(done, [p], Split(ctx, data[offset + n..]));
    }
  }

  lemma NoArrivals(ctx: Context, ports: set<byte>, s: State, from: Address, envs: nat -> Env)
    requires Closed(s)
    ensures Run(ctx, ports, s, Arrivals([], from, envs)) == s
  {}

  /** The events the packets of a datagram are to the server; the n-th meets the clock and the handlers as `envs(n)`. */
  function Arrivals(ps: seq<QPacket>, from: Address, envs: nat -> Env): seq<Event> {
    seq(|ps|, k requires 0 <= k < |ps| => Incoming(ps[k], from, envs(k)))
  }

  lemma ArrivalsSnoc(ctx: Context, ports: set<byte>, s: State, ps: seq<QPacket>, p: QPacket, from: Address,
                     envs: nat -> Env)
    requires Closed(s)
    ensures Run(ctx, ports, s, Arrivals(ps + [p], from, envs)) ==
            Server.HandlePacket(ctx, ports, Run(ctx, ports, s, Arrivals(ps, from, envs)), p, from, envs(|ps|))
  {
    hide Server.HandlePacket;
    var es := Arrivals(ps + [p], from, envs);
    assert es[..|es| - 1] == Arrivals(ps, from, envs);
  }

  /** What is left when the clients under the signatures `gone` have expired. */
  ghost function WithoutClients(s: State, gone: set<u32>): State
    requires Closed(s) && gone <= s.clients.Keys
  {
    s.(clients := s.clients - gone, connectionIds := s.connectionIds - IdsOf(s, gone),
       expired := s.expired + multiset(IndicesOf(s, gone)))
  }

  ghost function SilentAmong(s: State, sigs: set<u32>, now: int): (gone: set<u32>)
    requires Closed(s)
    ensures gone <= s.clients.Keys
  {
    set sig | sig in sigs && sig in s.clients && Silent(s.objects[s.clients[sig]], now)
  }

  ghost function Expired(s: State, signature: u32): State
    requires Closed(s) && signature in s.clients
  {
    var t := Server.RemoveClient(s, signature);
    t.(expired := t.expired + multiset{s.clients[signature]})
  }

  lemma NoneExpired(s: State, now: int)
    requires Closed(s)
    ensures WithoutClients(s, SilentAmong(s, {}, now)) == s
  {}

  lemma StillThere(s: State, gone: set<u32>, signature: u32)
    requires Closed(s) && gone <= s.clients.Keys
    ensures var t := WithoutClients(s, gone);
            && Closed(t) && t.objects == s.objects && t.newClients == s.newClients
            && (signature in t.clients <==> signature in s.clients && signature !in gone)
            && (signature in t.clients ==> t.clients[signature] == s.clients[signature])
  {}

  /** A client is looked at once, and leaves if it is silent. */
  ghost function AfterCheck(s: State, signature: u32, now: int): State
    requires Closed(s) && signature in s.clients
  {
    if Silent(s.objects[s.clients[signature]], now) then Expired(s, signature) else s
  }

  lemma OneMoreChecked(s: State, left: set<u32>, signature: u32, now: int)
    requires OwnSignatures(s) && left <= s.clients.Keys && signature in left
    ensures var t := WithoutClients(s, SilentAmong(s, s.clients.Keys - left, now));
            && Closed(t) && signature in t.clients
            && WithoutClients(s, SilentAmong(s, s.clients.Keys - (left - {signature}), now)) ==
               AfterCheck(t, signature, now)
  {
    hide WithoutClients, Expired;
    var done := s.clients.Keys - left;
    var gone := SilentAmong(s, done, now);
    StillThere(s, gone, signature);
    assert s.clients.Keys - (left - {signature}) == done + {signature};
    if Silent(s.objects[s.clients[signature]], now) {
      assert SilentAmong(s, done + {signature}, now) == gone + {signature};
      OneMoreExpired(s, gone, signature);
    } else {
      assert SilentAmong(s, done + {signature}, now) == gone;
    }
  }

  ghost function WithoutWaiting(s: State, checked: set<u32>, now: int): State
    requires Closed(s)
  {
    s.(newClients := map sig | sig in s.newClients && !(sig in checked && Silent(s.objects[s.newClients[sig]], now))
                       :: s.newClients[sig])
  }

  ghost function AfterDrop(s: State, signature: u32, now: int): State
    requires Closed(s) && signature in s.newClients
  {
    if Silent(s.objects[s.newClients[signature]], now) then s.(newClients := s.newClients - {signature}) else s
  }

  lemma NoneDropped(s: State, now: int)
    requires Closed(s)
    ensures WithoutWaiting(s, {}, now) == s
  {}

  lemma OneMoreDropped(s: State, left: set<u32>, signature: u32, now: int)
    requires Closed(s) && left <= s.newClients.Keys && signature in left
    ensures var t := WithoutWaiting(s, s.newClients.Keys - left, now);
            && Closed(t) && signature in t.newClients
            && WithoutWaiting(s, s.newClients.Keys - (left - {signature}), now) == AfterDrop(t, signature, now)
  {
    hide Silent;
    assert s.newClients.Keys - (left - {signature}) == s.newClients.Keys - left + {signature};
  }

  lemma ConnectedPart(s: State, now: int)
    requires Closed(s)
    ensures ExpireClients(s, now).(newClients := s.newClients) == WithoutClients(s, SilentAmong(s, s.clients.Keys, now))
  {
    hide Silent, IdsOf, IndicesOf;
    assert SilentAmong(s, s.clients.Keys, now) == SilentClients(s, now);
  }

  lemma WaitingPart(s: State, t: State, now: int)
    requires Closed(s) && Closed(t) && t.objects == s.objects && t.newClients == s.newClients
    ensures ExpireClients(s, now).newClients == WithoutWaiting(t, t.newClients.Keys, now).newClients
    ensures WithoutWaiting(t, t.newClients.Keys, now) ==
            t.(newClients := WithoutWaiting(t, t.newClients.Keys, now).newClients)
  {
    hide Silent;
  }

  lemma ExpireSplits(s: State, now: int)
    requires Closed(s)
    ensures var t := WithoutClients(s, SilentAmong(s, s.clients.Keys, now));
            Closed(t) && ExpireClients(s, now) == WithoutWaiting(t, t.newClients.Keys, now)
  {
    hide ExpireClients, WithoutClients, WithoutWaiting, SilentAmong;
    ConnectedPart(s, now);
    StillThere(s, SilentAmong(s, s.clients.Keys, now), 0);
    WaitingPart(s, WithoutClients(s, SilentAmong(s, s.clients.Keys, now)), now);
  }

  ghost predicate OwnSignatures(s: State) {
    Closed(s) && forall sig :: sig in s.clients ==> s.objects[s.clients[sig]].serverSignature == sig
  }

  lemma OneMoreId(s: State, gone: set<u32>, signature: u32)
    requires Closed(s) && gone <= s.clients.Keys && signature in s.clients
    ensures var id := s.objects[s.clients[signature]].connectionId;
            IdsOf(s, gone + {signature}) == IdsOf(s, gone) + if id.Some? then {id.value} else {}
  {}

  lemma OneMoreIndex(s: State, gone: set<u32>, signature: u32)
    requires OwnSignatures(s) && gone <= s.clients.Keys && signature in s.clients && signature !in gone
    ensures multiset(IndicesOf(s, gone + {signature})) == multiset(IndicesOf(s, gone)) + multiset{s.clients[signature]}
  {
    var i := s.clients[signature];
    assert i !in IndicesOf(s, gone);
    assert IndicesOf(s, gone + {signature}) == IndicesOf(s, gone) + {i};
  }

  lemma OneMoreExpired(s: State, gone: set<u32>, signature: u32)
    requires OwnSignatures(s) && gone <= s.clients.Keys && signature in s.clients && signature !in gone
    ensures var t := WithoutClients(s, gone);
            Closed(t) && signature in t.clients && WithoutClients(s, gone + {signature}) == Expired(t, signature)
  {
    hide IdsOf, IndicesOf;
    var t := WithoutClients(s, gone);
    StillThere(s, gone, signature);
    OneMoreId(s, gone, signature);
    OneMoreIndex(s, gone, signature);
    assert s.clients - gone - {signature} == s.clients - (gone + {signature});
    assert s.connectionIds - IdsOf(s, gone + {signature}) == Server.RemoveClient(t, signature).connectionIds;
  }
}
