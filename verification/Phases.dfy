/** What each event makes of a client: where it is listed, what it is called, and whether it is reported. */
module Phases {
  import opened Basics
  import opened Packets
  import opened Server
  import opened Frames
  import opened Registry
  import opened Runs

  /** A packet of this type that is not an acknowledgement, under this signature. */
  predicate Under(e: Event, packetType: int, signature: u32) {
    e.Incoming? && e.packet.flags % 2 == 0 && e.packet.packetType == packetType && e.packet.signature == signature
  }

  /** A waiting client connects with the first CONNECT (type 1) under its signature that brings its own. */
  predicate Connects(s: State, e: Event, i: nat)
    requires i < |s.objects|
  {
    IsNew(s, i) && Under(e, 1, s.objects[i].serverSignature) && e.packet.connSignature.Some?
  }

  /** A connected client quits with a DISCONNECT (type 3) under its signature. */
  predicate Quits(s: State, e: Event, i: nat)
    requires i < |s.objects|
  {
    IsConnected(s, i) && Under(e, 3, s.objects[i].serverSignature)
  }

  /** The timer finds a client that has been silent for more than a minute. */
  predicate TimesOut(s: State, e: Event, i: nat)
    requires i < |s.objects|
  {
    e.Tick? && e.now - s.objects[i].lastSeen > 60_000
  }

  /** A connecting client logs in with a ticket that opens and is valid up to the end of the present second. */
  predicate LogsIn(ctx: Context, s: State, e: Event, i: nat)
    requires i < |s.objects|
  {
    Connects(s, e, i) &&
    var ticket := PresentedTicket(ctx, e.packet.payload);
    ticket.Ok? && e.env.now < 1000 * (ticket.value.validUntil + 1)
  }

  function NextPhase(s: State, e: Event, i: nat): Phase
    requires i < |s.objects|
  {
    if Connects(s, e, i) then Connected
    else if Quits(s, e, i) || TimesOut(s, e, i) then Gone
    else PhaseOf(s, i)
  }

  /** What client `i` is called after event `e`, and who it is logged in as. */
  predicate Named(ctx: Context, s: State, e: Event, i: nat, c: Client)
    requires i < |s.objects|
  {
    var before := s.objects[i];
    && c.clientSignature == (if Connects(s, e, i) then e.packet.connSignature else before.clientSignature)
    && c.clientSession == (if Connects(s, e, i) then e.packet.sessionId else before.clientSession)
    && c.serverSession == (if Connects(s, e, i) then e.env.session else before.serverSession)
    && c.connectionId == (if LogsIn(ctx, s, e, i) then Some(s.nextConnectionId) else before.connectionId)
    && c.userId == if LogsIn(ctx, s, e, i) then Some(PresentedTicket(ctx, e.packet.payload).value.principleId)
                   else if e.LoggedIn? && e.client == i then Some(e.userId)
                   else before.userId
  }

  ghost predicate Moves(ctx: Context, s: State, e: Event, t: State, i: nat)
    requires i < |s.objects|
  {
    && i < |t.objects| && PhaseOf(t, i) == NextPhase(s, e, i) && Named(ctx, s, e, i, t.objects[i])
    && t.disconnected[i] == s.disconnected[i] + (if Quits(s, e, i) then 1 else 0)
    && t.expired[i] == s.expired[i] + if TimesOut(s, e, i) && IsConnected(s, i) then 1 else 0
  }

  // ---- events that move nobody ----

  lemma QuietMoves(ctx: Context, s: State, e: Event, t: State, i: nat)
    requires Quiet(s, t) && i < |s.objects|
    requires !Connects(s, e, i) && !Quits(s, e, i) && !e.Tick? && !e.LoggedIn?
    ensures Moves(ctx, s, e, t, i)
  {}

  lemma LoginMoves(ctx: Context, ports: set<byte>, s: State, e: Event, i: nat)
    requires Closed(s) && e.LoggedIn? && i < |s.objects|
    ensures Moves(ctx, s, e, Step(ctx, ports, s, e), i)
  {}

  // ---- packets ----

  lemma StaysFor(ctx: Context, s: State, e: Event, t: State, i: nat)
    requires i < |s.objects| && i < |t.objects| && t.objects[i] == s.objects[i] && PhaseOf(t, i) == PhaseOf(s, i)
    requires t.disconnected == s.disconnected && t.expired == s.expired
    requires !Connects(s, e, i) && !Quits(s, e, i) && !e.Tick? && !e.LoggedIn?
    ensures Moves(ctx, s, e, t, i)
  {}

  lemma MovesOn(ctx: Context, s: State, e: Event, t: State, u: State, i: nat)
    requires i < |s.objects| && Moves(ctx, s, e, t, i) && Quiet(t, u)
    ensures Moves(ctx, s, e, u, i)
  {
    hide NextPhase, Connects, Quits, LogsIn, TimesOut;
  }

  lemma SynMoves(ctx: Context, s: State, p: QPacket, from: Address, env: Env, i: nat)
    requires Inv(s) && Fresh(s, Incoming(p, from, env)) && p.packetType == 0 && !IsAck(p) && i < |s.objects|
    ensures Moves(ctx, s, Incoming(p, from, env), HandleSyn(ctx, s, p, from, env), i)
  {
    hide SendAck, Inv, Quiet, OthersStay, Moves;
    var c := NewClient(from, env.signature, env.now);
    var t := WithNew(s, c);
    InvTables(s);
    NewTables(s, c);
    OthersAdvance(s, t, |s.objects|, i);
    StaysFor(ctx, s, Incoming(p, from, env), t, i);
    SendAckQuiet(ctx, t, from, p.(connSignature := Some(env.signature)), |s.objects|, false);
    MovesOn(ctx, s, Incoming(p, from, env), t, HandleSyn(ctx, s, p, from, env), i);
  }

  lemma AdmittedMoves(ctx: Context, s: State, p: QPacket, from: Address, env: Env, i: nat)
    requires Tables(s) && Stages(s) && p.packetType == 1 && !IsAck(p) && p.connSignature.Some?
    requires p.signature in s.newClients && i < |s.objects|
    ensures Moves(ctx, s, Incoming(p, from, env), Admitted(ctx, s, p, env), i)
  {
    hide PresentedTicket, Tables;
    AdmittedPhases(ctx, s, p, env);
    var client, t := s.newClients[p.signature], Admitted(ctx, s, p, env);
    if i != client {
      OthersAdvance(s, t, client, i);
      OtherSignature(s, client, i);
    }
  }

  lemma OtherSignature(s: State, client: nat, i: nat)
    requires Tables(s) && IsNew(s, client) && i != client
    ensures IsNew(s, i) ==> s.objects[i].serverSignature != s.objects[client].serverSignature
  {}

  lemma ConnectMoves(ctx: Context, s: State, p: QPacket, from: Address, env: Env, i: nat)
    requires Inv(s) && p.packetType == 1 && !IsAck(p) && i < |s.objects|
    ensures Moves(ctx, s, Incoming(p, from, env), HandleConnect(ctx, s, p, from, env), i)
  {
    hide SendAck, Inv, Quiet, Admitted, Moves, AcceptTicket;
    InvTables(s);
    if p.connSignature.Some? && p.signature in s.newClients {
      ConnectAdmits(ctx, s, p, from, env);
      AdmittedMoves(ctx, s, p, from, env, i);
      MovesOn(ctx, s, Incoming(p, from, env), Admitted(ctx, s, p, env), HandleConnect(ctx, s, p, from, env), i);
    } else {
      StaysFor(ctx, s, Incoming(p, from, env), s, i);
    }
  }

  lemma DisconnectMoves(ctx: Context, s: State, p: QPacket, from: Address, env: Env, i: nat)
    requires Inv(s) && p.packetType == 3 && !IsAck(p) && i < |s.objects|
    ensures Moves(ctx, s, Incoming(p, from, env), HandleDisconnect(ctx, s, p, from), i)
  {
    hide SendAck, Quiet, Inv, Moves;
    InvTables(s);
    if p.signature in s.clients {
      var client := s.clients[p.signature];
      var removed := RemoveClient(s, p.signature);
      var t := removed.(disconnected := removed.disconnected + multiset{client});
      RemovedMoves(ctx, s, p, from, env, t, i);
      SendAckQuiet(ctx, removed, from, p, client, false);
      SameReports(removed, SendAck(ctx, removed, from, p, client, false), multiset{client});
      MovesOn(ctx, s, Incoming(p, from, env), t, HandleDisconnect(ctx, s, p, from), i);
    } else {
      StaysFor(ctx, s, Incoming(p, from, env), s, i);
    }
  }

  lemma RemovedMoves(ctx: Context, s: State, p: QPacket, from: Address, env: Env, t: State, i: nat)
    requires Tables(s) && p.packetType == 3 && !IsAck(p) && i < |s.objects| && p.signature in s.clients
    requires var removed := RemoveClient(s, p.signature);
             t == removed.(disconnected := removed.disconnected + multiset{s.clients[p.signature]})
    ensures Moves(ctx, s, Incoming(p, from, env), t, i)
  {}

  // ---- the timer ----

  lemma TickMoves(ctx: Context, s: State, now: int, i: nat)
    requires Inv(s) && i < |s.objects|
    ensures Closed(s) && Moves(ctx, s, Tick(now), ExpireClients(s, now), i)
  {
    InvTables(s);
    TickKeepsTheLive(s, now, i);
    IndicesLeave(s, SilentClients(s, now), i);
  }

  // ---- all events ----

  /**
   * Exactly how each event moves each client on: it connects, quits or times out, takes its names and
   * its login from its CONNECT, and is reported for the reason it left.
   */
  lemma StepMoves(ctx: Context, ports: set<byte>, s: State, e: Event, i: nat)
    requires Inv(s) && Fresh(s, e) && i < |s.objects|
    ensures Closed(s) && Moves(ctx, s, e, Step(ctx, ports, s, e), i)
  {
    hide HandlePacket, ExpireClients, Complete, SendRequest, Inv, Quiet, Moves;
    InvCloses(s);
    var t := Step(ctx, ports, s, e);
    match e
    case Incoming(p, from, env) => PacketMoves(ctx, ports, s, p, from, env, i);
    case Completed(k, response) =>
      CompleteQuiet(ctx, s, k, response);
      QuietMoves(ctx, s, e, t, i);
    case Requested(client, p) =>
      if client < |s.objects| {
        SendRequestQuiet(ctx, s, client, p);
        QuietMoves(ctx, s, e, t, i);
      } else {
        StaysFor(ctx, s, e, t, i);
      }
    case LoggedIn(client, userId) => LoginMoves(ctx, ports, s, e, i);
    case Tick(now) => TickMoves(ctx, s, now, i);
  }

  lemma PacketMoves(ctx: Context, ports: set<byte>, s: State, p: QPacket, from: Address, env: Env, i: nat)
    requires Inv(s) && Fresh(s, Incoming(p, from, env)) && i < |s.objects|
    ensures Closed(s) && Moves(ctx, s, Incoming(p, from, env), HandlePacket(ctx, ports, s, p, from, env), i)
  {
    hide HandleSyn, HandleConnect, HandleData, HandleDisconnect, HandlePing, Inv, Quiet, Moves;
    InvCloses(s);
    var t, e := HandlePacket(ctx, ports, s, p, from, env), Incoming(p, from, env);
    if IsAck(p) {
      StaysFor(ctx, s, e, t, i);
    } else if p.packetType == SYN {
      SynMoves(ctx, s, p, from, env, i);
    } else if p.packetType == CONNECT {
      ConnectMoves(ctx, s, p, from, env, i);
    } else if p.packetType == DATA {
      HandleDataQuiet(ctx, s, ports, p, from, env);
      QuietMoves(ctx, s, e, t, i);
    } else if p.packetType == DISCONNECT {
      DisconnectMoves(ctx, s, p, from, env, i);
    } else if p.packetType == PING {
      HandlePingQuiet(ctx, s, p, from, env.now);
      QuietMoves(ctx, s, e, t, i);
    } else {
      StaysFor(ctx, s, e, t, i);
    }
  }

  /** A SYN (type 0) makes one new client, waiting, known by nothing but its address and its signature. */
  lemma StepCreates(ctx: Context, ports: set<byte>, s: State, e: Event)
    requires Closed(s)
    ensures var t := Step(ctx, ports, s, e);
            if e.Incoming? && e.packet.flags % 2 == 0 && e.packet.packetType == 0 then
              && |t.objects| == |s.objects| + 1 && IsNew(t, |s.objects|)
              && t.objects[|s.objects|] ==
                 Client(e.from, e.env.signature, None, 1, 1, 0, 0, map[], e.env.now, None, None)
            else |t.objects| == |s.objects|
  {
    hide HandleSyn, HandleConnect, HandleData, HandleDisconnect, HandlePing, ExpireClients, Complete, SendRequest;
    match e
    case Incoming(p, from, env) =>
      if p.packetType == SYN {
        SynCreates(ctx, s, p, from, env);
      } else if p.packetType == CONNECT {
        ConnectCloses(ctx, s, p, from, env);
      } else if p.packetType == DATA {
        HandleDataQuiet(ctx, s, ports, p, from, env);
      } else if p.packetType == DISCONNECT {
        DisconnectCloses(ctx, s, p, from);
      } else if p.packetType == PING {
        HandlePingQuiet(ctx, s, p, from, env.now);
      }
    case Completed(k, response) => CompleteQuiet(ctx, s, k, response);
    case Requested(client, p) =>
      if client < |s.objects| {
        SendRequestQuiet(ctx, s, client, p);
      }
    case LoggedIn(client, userId) =>
    case Tick(now) => ExpireCloses(s, now);
  }

  lemma SynCreates(ctx: Context, s: State, p: QPacket, from: Address, env: Env)
    requires Closed(s)
    ensures var t := HandleSyn(ctx, s, p, from, env);
            && |t.objects| == |s.objects| + 1 && IsNew(t, |s.objects|)
            && t.objects[|s.objects|] == Client(from, env.signature, None, 1, 1, 0, 0, map[], env.now, None, None)
  {
    hide SendAck;
    AckFrame(ctx, WithNew(s, NewClient(from, env.signature, env.now)), from, p.(connSignature := Some(env.signature)),
             |s.objects|, false);
  }
}
