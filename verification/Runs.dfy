/** Whole runs of the server: lookups by connection id, the life of a client, and who is logged in. */
module Runs {
  import opened Basics
  import Rc4
  import opened Packets
  import opened Server
  import opened Registry

  // ---- runs ----

  lemma StepCloses(ctx: Context, ports: set<byte>, s: State, e: Event)
    requires Closed(s)
    ensures Closed(Step(ctx, ports, s, e))
    ensures |s.objects| <= |Step(ctx, ports, s, e).objects|
    ensures s.accepted <= Step(ctx, ports, s, e).accepted
  {
    hide HandleSyn, HandleConnect, HandleData, HandleDisconnect, HandlePing, ExpireClients, Complete, SendRequest;
    match e
    case Incoming(p, from, env) => PacketCloses(ctx, ports, s, p, from, env);
    case Completed(i, response) => CompleteQuiet(ctx, s, i, response);
    case Requested(client, p) =>
      if client < |s.objects| {
        SendRequestQuiet(ctx, s, client, p);
      }
    case LoggedIn(client, userId) =>
    case Tick(now) => ExpireCloses(s, now);
  }

  lemma ExpireCloses(s: State, now: int)
    requires Closed(s)
    ensures Closed(ExpireClients(s, now)) && ExpireClients(s, now).objects == s.objects
    ensures ExpireClients(s, now).accepted == s.accepted
  {}

  lemma PacketCloses(ctx: Context, ports: set<byte>, s: State, p: QPacket, from: Address, env: Env)
    requires Closed(s)
    ensures var t := HandlePacket(ctx, ports, s, p, from, env);
            Closed(t) && |s.objects| <= |t.objects| && s.accepted <= t.accepted
  {
    hide HandleSyn, HandleConnect, HandleData, HandleDisconnect, HandlePing;
    if IsAck(p) {
    } else if p.packetType == SYN {
      SynCloses(ctx, s, p, from, env);
    } else if p.packetType == CONNECT {
      ConnectCloses(ctx, s, p, from, env);
    } else if p.packetType == DATA {
      HandleDataQuiet(ctx, s, ports, p, from, env);
    } else if p.packetType == DISCONNECT {
      DisconnectCloses(ctx, s, p, from);
    } else if p.packetType == PING {
      HandlePingQuiet(ctx, s, p, from, env.now);
    }
  }

  lemma SynCloses(ctx: Context, s: State, p: QPacket, from: Address, env: Env)
    requires Closed(s)
    ensures var t := HandleSyn(ctx, s, p, from, env);
            Closed(t) && |s.objects| <= |t.objects| && s.accepted <= t.accepted
  {
    hide SendAck;
    var t := WithNew(s, NewClient(from, env.signature, env.now));
    SendAckQuiet(ctx, t, from, p.(connSignature := Some(env.signature)), |s.objects|, false);
  }

  lemma ConnectCloses(ctx: Context, s: State, p: QPacket, from: Address, env: Env)
    requires Closed(s)
    ensures var t := HandleConnect(ctx, s, p, from, env);
            Closed(t) && |s.objects| == |t.objects| && s.accepted <= t.accepted
  {
    hide SendAck, PresentedTicket, Challenge;
    if p.connSignature.Some? && p.signature in s.newClients {
      var client := s.newClients[p.signature];
      var c := s.objects[client].(clientSignature := p.connSignature, serverSession := env.session,
                                  clientSession := p.sessionId);
      var s1 := Promoted(s, p.signature, c);
      var (s2, reply) := if p.payload == [] then (s1, [])
                         else AcceptTicket(ctx, s1, client, p.signature, p.payload, env.now);
      SendAckQuiet(ctx, s2, from, p.(connSignature := Some(0), payload := reply), client, reply != []);
    }
  }

  lemma DisconnectCloses(ctx: Context, s: State, p: QPacket, from: Address)
    requires Closed(s)
    ensures var t := HandleDisconnect(ctx, s, p, from);
            Closed(t) && |s.objects| == |t.objects| && s.accepted == t.accepted
  {
    hide SendAck;
    if p.signature in s.clients {
      SendAckQuiet(ctx, RemoveClient(s, p.signature), from, p, s.clients[p.signature], false);
    }
  }

  /** The state after the events of a run, in order. */
  function Run(ctx: Context, ports: set<byte>, s: State, es: seq<Event>): (t: State)
    requires Closed(s)
    ensures Closed(t)
    decreases |es|
  {
    if es == [] then s else
    var before := Run(ctx, ports, s, es[..|es| - 1]);
    StepCloses(ctx, ports, before, es[|es| - 1]);
    Step(ctx, ports, before, es[|es| - 1])
  }

  /** Every random signature was fresh when it was drawn. */
  ghost predicate FreshRun(ctx: Context, ports: set<byte>, s: State, es: seq<Event>)
    requires Closed(s)
    decreases |es|
  {
    es != [] ==>
      FreshRun(ctx, ports, s, es[..|es| - 1]) && Fresh(Run(ctx, ports, s, es[..|es| - 1]), es[|es| - 1])
  }

  lemma {:induction false} RunKeepsInv(ctx: Context, ports: set<byte>, s: State, es: seq<Event>)
    requires Rc4.ValidKey(ctx.cryptoKey)
    requires Closed(s) && Inv(s) && FreshRun(ctx, ports, s, es) && Run(ctx, ports, s, es).accepted <= WRAP
    ensures Inv(Run(ctx, ports, s, es))
    decreases |es|
  {
    hide Inv, Step, Fresh, Closed;
    if es == [] {
    } else {
      var before := Run(ctx, ports, s, es[..|es| - 1]);
      StepCloses(ctx, ports, before, es[|es| - 1]);
      RunKeepsInv(ctx, ports, s, es[..|es| - 1]);
      StepKeepsInv(ctx, ports, before, es[|es| - 1]);
    }
  }

  // ---- lookup by connection id ----

  function ClientByConnectionId(s: State, id: u32): Option<nat> {
    if id !in s.connectionIds || s.connectionIds[id] !in s.clients then None
    else Some(s.clients[s.connectionIds[id]])
  }

  /** At every point of every run: the one connected client with the id, or nothing when there is none. */
  lemma LookupIsExact(ctx: Context, ports: set<byte>, es: seq<Event>, id: u32, i: nat)
    requires Rc4.ValidKey(ctx.cryptoKey)
    requires FreshRun(ctx, ports, Initial(), es) && Run(ctx, ports, Initial(), es).accepted <= WRAP
    ensures var s := Run(ctx, ports, Initial(), es);
            ClientByConnectionId(s, id) == Some(i) <==> IsConnected(s, i) && s.objects[i].connectionId == Some(id)
  {
    hide Inv, FreshRun, Run, ClientByConnectionId;
    InitialInv();
    RunKeepsInv(ctx, ports, Initial(), es);
    LookupMatches(Run(ctx, ports, Initial(), es), id, i);
  }

  lemma LookupMatches(s: State, id: u32, i: nat)
    requires Inv(s)
    ensures ClientByConnectionId(s, id) == Some(i) <==> IsConnected(s, i) && s.objects[i].connectionId == Some(id)
  {}

  // ---- the life of a client ----

  datatype Phase = New | Connected | Gone

  function PhaseOf(s: State, i: nat): Phase {
    if IsConnected(s, i) then Connected else if IsNew(s, i) then New else Gone
  }

  predicate Later(a: Phase, b: Phase) {
    a == New || a == b || b == Gone
  }

  /** Clients only move on, keep what they were given, and are given a connection id only when they connect. */
  ghost predicate Advances(s: State, t: State, i: nat)
    requires i < |s.objects|
  {
    && i < |t.objects|
    && Later(PhaseOf(s, i), PhaseOf(t, i))
    && t.objects[i].serverSignature == s.objects[i].serverSignature
    && (s.objects[i].clientSignature.Some? ==> t.objects[i].clientSignature == s.objects[i].clientSignature)
    && (s.objects[i].connectionId.Some? ==> t.objects[i].connectionId == s.objects[i].connectionId)
  }

  /** A connection id appears only in the step in which a waiting client connects. */
  ghost predicate ConnectsOnce(s: State, t: State, i: nat)
    requires i < |s.objects|
  {
    i < |t.objects| &&
    (s.objects[i].connectionId.None? && t.objects[i].connectionId.Some? ==> IsNew(s, i) && IsConnected(t, i))
  }

  lemma QuietAdvances(s: State, t: State, i: nat)
    requires Quiet(s, t) && i < |s.objects|
    ensures Advances(s, t, i) && ConnectsOnce(s, t, i) && PhaseOf(t, i) == PhaseOf(s, i)
    ensures t.objects[i].connectionId == s.objects[i].connectionId
  {}

  lemma OthersAdvance(s: State, t: State, client: nat, i: nat)
    requires OthersStay(s, t, client) && i < |s.objects| && i != client
    ensures Advances(s, t, i) && ConnectsOnce(s, t, i) && t.objects[i] == s.objects[i] && PhaseOf(t, i) == PhaseOf(s, i)
  {}

  lemma SynAdvances(ctx: Context, s: State, p: QPacket, from: Address, env: Env, i: nat)
    requires Inv(s) && env.signature !in s.newClients && env.signature !in s.clients && i < |s.objects|
    ensures Advances(s, HandleSyn(ctx, s, p, from, env), i) && ConnectsOnce(s, HandleSyn(ctx, s, p, from, env), i)
  {
    hide SendAck, OthersStay, Inv, Quiet;
    var c := NewClient(from, env.signature, env.now);
    var t := WithNew(s, c);
    InvCloses(s);
    assert Tables(s) by { InvTables(s); }
    NewTables(s, c);
    OthersAdvance(s, t, |s.objects|, i);
    SendAckQuiet(ctx, t, from, p.(connSignature := Some(env.signature)), |s.objects|, false);
    QuietAdvances(t, HandleSyn(ctx, s, p, from, env), i);
  }

  lemma InvTables(s: State)
    requires Inv(s)
    ensures Tables(s) && Stages(s)
  {}

  /** A ticket is valid to the end of its last second. */
  lemma InSeconds(validUntil: nat, now: int)
    ensures validUntil < now / 1000 <==> now >= 1000 * (validUntil + 1)
  {}

  /** The state in which a waiting client is connected, and logged in when its ticket is good. */
  function Admitted(ctx: Context, s: State, p: QPacket, env: Env): State
    requires p.signature in s.newClients && s.newClients[p.signature] < |s.objects|
  {
    var client := s.newClients[p.signature];
    var c := s.objects[client].(clientSignature := p.connSignature, serverSession := env.session,
                                clientSession := p.sessionId);
    var s1 := Promoted(s, p.signature, c);
    var ticket := PresentedTicket(ctx, p.payload);
    if ticket.Ok? && env.now < 1000 * (ticket.value.validUntil + 1)
    then Accepted(s1, client, ticket.value.principleId) else s1
  }

  lemma NoTicket(ctx: Context)
    ensures PresentedTicket(ctx, []).Err?
  {}

  /** A CONNECT that is recognised admits its client and acknowledges that. */
  lemma ConnectAdmits(ctx: Context, s: State, p: QPacket, from: Address, env: Env)
    requires Tables(s) && p.connSignature.Some? && p.signature in s.newClients
    ensures Quiet(Admitted(ctx, s, p, env), HandleConnect(ctx, s, p, from, env))
  {
    hide SendAck, PresentedTicket, Challenge, Quiet;
    var client := s.newClients[p.signature];
    var c := s.objects[client].(clientSignature := p.connSignature, serverSession := env.session,
                                clientSession := p.sessionId);
    var s1 := Promoted(s, p.signature, c);
    NoTicket(ctx);
    if PresentedTicket(ctx, p.payload).Ok? {
      InSeconds(PresentedTicket(ctx, p.payload).value.validUntil, env.now);
    }
    var (s2, reply) := if p.payload == [] then (s1, [])
                       else AcceptTicket(ctx, s1, client, p.signature, p.payload, env.now);
    assert s2 == Admitted(ctx, s, p, env);
    SendAckQuiet(ctx, s2, from, p.(connSignature := Some(0), payload := reply), client, reply != []);
  }

  /** The client is connected, and everybody else stays where it is. */
  lemma AdmittedPhases(ctx: Context, s: State, p: QPacket, env: Env)
    requires Tables(s) && p.signature in s.newClients
    ensures var client, t := s.newClients[p.signature], Admitted(ctx, s, p, env);
            && IsNew(s, client) && s.objects[client].serverSignature == p.signature && !IsConnected(s, client)
            && |t.objects| == |s.objects| && IsConnected(t, client) && OthersStay(s, t, client)
  {
    hide PresentedTicket, Tables, OthersStay;
    WaitsUnder(s, p.signature);
    var client := s.newClients[p.signature];
    var c := s.objects[client].(clientSignature := p.connSignature, serverSession := env.session,
                                clientSession := p.sessionId);
    var s1 := Promoted(s, p.signature, c);
    PromoteTables(s, p.signature, c);
    var ticket := PresentedTicket(ctx, p.payload);
    if ticket.Ok? {
      AcceptTables(s1, client, ticket.value.principleId);
      OthersStayOn(s, s1, Accepted(s1, client, ticket.value.principleId), client);
    }
  }

  lemma WaitsUnder(s: State, signature: u32)
    requires Tables(s) && signature in s.newClients
    ensures s.newClients[signature] < |s.objects| && IsNew(s, s.newClients[signature])
    ensures s.objects[s.newClients[signature]].serverSignature == signature
  {}

  lemma OthersStayOn(s: State, t: State, u: State, i: nat)
    requires OthersStay(s, t, i) && OthersStay(t, u, i) && |u.objects| == |t.objects| == |s.objects|
    ensures OthersStay(s, u, i)
  {
    hide IsNew, IsConnected;
  }

  lemma AdmittedAdvances(ctx: Context, s: State, p: QPacket, env: Env, i: nat)
    requires Tables(s) && Stages(s) && p.connSignature.Some? && p.signature in s.newClients && i < |s.objects|
    ensures Advances(s, Admitted(ctx, s, p, env), i) && ConnectsOnce(s, Admitted(ctx, s, p, env), i)
  {
    hide PresentedTicket, Tables, OthersStay;
    AdmittedPhases(ctx, s, p, env);
    if i != s.newClients[p.signature] {
      OthersAdvance(s, Admitted(ctx, s, p, env), s.newClients[p.signature], i);
    }
  }

  lemma AdvancesOn(s: State, t: State, u: State, i: nat)
    requires i < |s.objects| && Advances(s, t, i) && ConnectsOnce(s, t, i) && Quiet(t, u)
    ensures Advances(s, u, i) && ConnectsOnce(s, u, i)
  {}

  lemma ConnectAdvances(ctx: Context, s: State, p: QPacket, from: Address, env: Env, i: nat)
    requires Inv(s) && i < |s.objects|
    ensures Advances(s, HandleConnect(ctx, s, p, from, env), i)
    ensures ConnectsOnce(s, HandleConnect(ctx, s, p, from, env), i)
  {
    hide SendAck, Inv, Quiet, Admitted, Advances, ConnectsOnce, AcceptTicket;
    InvTables(s);
    if p.connSignature.Some? && p.signature in s.newClients {
      ConnectAdmits(ctx, s, p, from, env);
      AdmittedAdvances(ctx, s, p, env, i);
      AdvancesOn(s, Admitted(ctx, s, p, env), HandleConnect(ctx, s, p, from, env), i);
    } else {
      SameAdvances(s, i);
    }
  }

  lemma SameAdvances(s: State, i: nat)
    requires i < |s.objects|
    ensures Advances(s, s, i) && ConnectsOnce(s, s, i)
  {}

  lemma DepartedAdvance(s: State, t: State, gone: set<u32>, i: nat)
    requires Departed(s, t, gone) && Tables(s) && i < |s.objects|
    ensures Advances(s, t, i) && ConnectsOnce(s, t, i)
  {}

  lemma DisconnectAdvances(ctx: Context, s: State, p: QPacket, from: Address, i: nat)
    requires Inv(s) && i < |s.objects|
    ensures Advances(s, HandleDisconnect(ctx, s, p, from), i) && ConnectsOnce(s, HandleDisconnect(ctx, s, p, from), i)
  {
    hide SendAck, Inv, Quiet, Departed;
    if p.signature in s.clients {
      InvTables(s);
      var removed := RemoveClient(s, p.signature);
      var t := removed.(disconnected := removed.disconnected + multiset{s.clients[p.signature]});
      RemovedDeparts(s, p.signature, t);
      DepartedAdvance(s, t, {p.signature}, i);
      SendAckQuiet(ctx, removed, from, p, s.clients[p.signature], false);
      QuietAdvances(removed, SendAck(ctx, removed, from, p, s.clients[p.signature], false), i);
    }
  }

  /** Every step moves every client on, or leaves it where it is. */
  lemma StepAdvances(ctx: Context, ports: set<byte>, s: State, e: Event, i: nat)
    requires Inv(s) && Fresh(s, e) && i < |s.objects|
    ensures Advances(s, Step(ctx, ports, s, e), i) && ConnectsOnce(s, Step(ctx, ports, s, e), i)
  {
    hide HandleSyn, HandleConnect, HandleData, HandleDisconnect, HandlePing, ExpireClients, Complete, SendRequest;
    hide Inv, Quiet;
    InvCloses(s);
    InvTables(s);
    var t := Step(ctx, ports, s, e);
    match e
    case Incoming(p, from, env) => PacketAdvances(ctx, ports, s, p, from, env, i);
    case Completed(k, response) =>
      CompleteQuiet(ctx, s, k, response);
      QuietAdvances(s, t, i);
    case Requested(client, p) =>
      if client < |s.objects| {
        SendRequestQuiet(ctx, s, client, p);
        QuietAdvances(s, t, i);
      }
    case LoggedIn(client, userId) =>
    case Tick(now) =>
      ExpiredDepart(s, now);
      DepartedAdvance(s, t, SilentClients(s, now), i);
  }

  lemma PacketAdvances(ctx: Context, ports: set<byte>, s: State, p: QPacket, from: Address, env: Env, i: nat)
    requires Inv(s) && Fresh(s, Incoming(p, from, env)) && i < |s.objects|
    ensures Advances(s, HandlePacket(ctx, ports, s, p, from, env), i)
    ensures ConnectsOnce(s, HandlePacket(ctx, ports, s, p, from, env), i)
  {
    hide HandleSyn, HandleConnect, HandleData, HandleDisconnect, HandlePing;
    hide Inv, Quiet;
    InvCloses(s);
    if IsAck(p) {
    } else if p.packetType == SYN {
      SynAdvances(ctx, s, p, from, env, i);
    } else if p.packetType == CONNECT {
      ConnectAdvances(ctx, s, p, from, env, i);
    } else if p.packetType == DATA {
      HandleDataQuiet(ctx, s, ports, p, from, env);
      QuietAdvances(s, HandleData(ctx, s, ports, p, from, env), i);
    } else if p.packetType == DISCONNECT {
      DisconnectAdvances(ctx, s, p, from, i);
    } else if p.packetType == PING {
      HandlePingQuiet(ctx, s, p, from, env.now);
      QuietAdvances(s, HandlePing(ctx, s, p, from, env.now), i);
    }
  }

  lemma ConnectedPhase(s: State, i: nat)
    requires IsConnected(s, i)
    ensures PhaseOf(s, i) == Connected
  {}

  /** A client that is connected after a step and was not new before was connected before. */
  lemma StillConnected(s: State, t: State, i: nat)
    requires i < |s.objects| && Advances(s, t, i) && IsConnected(t, i) && PhaseOf(s, i) != New
    ensures IsConnected(s, i)
  {}

  /**
   * Over any part of any run a client goes from new to connected to gone and never back, and keeps
   * the connection id it was given: its ticket is accepted at most once.
   */
  lemma {:induction false} RunAdvances(ctx: Context, ports: set<byte>, s: State, es: seq<Event>, i: nat)
    requires Rc4.ValidKey(ctx.cryptoKey)
    requires Closed(s) && Inv(s) && FreshRun(ctx, ports, s, es) && Run(ctx, ports, s, es).accepted <= WRAP
    requires i < |s.objects|
    ensures Advances(s, Run(ctx, ports, s, es), i)
    decreases |es|
  {
    hide Inv, Step, Fresh, Closed, IsNew, IsConnected;
    if es == [] {
    } else {
      var before := Run(ctx, ports, s, es[..|es| - 1]);
      StepCloses(ctx, ports, before, es[|es| - 1]);
      RunAdvances(ctx, ports, s, es[..|es| - 1], i);
      RunKeepsInv(ctx, ports, s, es[..|es| - 1]);
      StepAdvances(ctx, ports, before, es[|es| - 1], i);
    }
  }

  /** At every point of every run, exactly the clients that were connected and are gone were reported, once each. */
  lemma ReportedExactlyOnce(ctx: Context, ports: set<byte>, es: seq<Event>, i: nat)
    requires Rc4.ValidKey(ctx.cryptoKey)
    requires FreshRun(ctx, ports, Initial(), es) && Run(ctx, ports, Initial(), es).accepted <= WRAP
    ensures var s := Run(ctx, ports, Initial(), es);
            (s.disconnected + s.expired)[i] ==
            if i < |s.objects| && s.objects[i].clientSignature.Some? && PhaseOf(s, i) == Gone then 1 else 0
  {
    InitialInv();
    RunKeepsInv(ctx, ports, Initial(), es);
    var s := Run(ctx, ports, Initial(), es);
    assert Stages(s) && Reported(s);
  }

  /** A tick keeps exactly the clients heard of within a minute, waiting or connected. */
  lemma TickKeepsTheLive(s: State, now: int, i: nat)
    requires Inv(s) && i < |s.objects|
    ensures var t := ExpireClients(s, now);
            && (IsConnected(t, i) <==> IsConnected(s, i) && now - s.objects[i].lastSeen <= 60_000)
            && (IsNew(t, i) <==> IsNew(s, i) && now - s.objects[i].lastSeen <= 60_000)
  {}

  // ---- who is logged in ----

  /** Event `e` is a CONNECT whose ticket the server could open and that had not expired. */
  predicate Vouches(ctx: Context, e: Event, signature: u32, userId: u32) {
    && e.Incoming? && e.packet.packetType == CONNECT && !IsAck(e.packet) && e.packet.signature == signature
    && PresentedTicket(ctx, e.packet.payload).Ok?
    && PresentedTicket(ctx, e.packet.payload).value.principleId == userId
    && e.env.now < 1000 * (PresentedTicket(ctx, e.packet.payload).value.validUntil + 1)
  }

  ghost predicate LoginsVouched(ctx: Context, s: State, es: seq<Event>) {
    forall i :: 0 <= i < |s.objects| ==>
      && (s.objects[i].userId.Some? <==> s.objects[i].connectionId.Some?)
      && (s.objects[i].userId.Some? ==>
            exists e :: e in es && Vouches(ctx, e, s.objects[i].serverSignature, s.objects[i].userId.value))
  }

  /** No step but a login of the authentication service gives a client a user in any other way. */
  ghost predicate UsersKept(ctx: Context, s: State, t: State, e: Event) {
    && |s.objects| <= |t.objects|
    && forall i :: 0 <= i < |t.objects| ==>
         || (i < |s.objects| && t.objects[i].userId == s.objects[i].userId
             && t.objects[i].connectionId == s.objects[i].connectionId
             && t.objects[i].serverSignature == s.objects[i].serverSignature)
         || (i >= |s.objects| && t.objects[i].userId.None? && t.objects[i].connectionId.None?)
         || (t.objects[i].userId.Some? && t.objects[i].connectionId.Some?
             && Vouches(ctx, e, t.objects[i].serverSignature, t.objects[i].userId.value))
  }

  lemma QuietUsers(ctx: Context, s: State, t: State, e: Event)
    requires Quiet(s, t)
    ensures UsersKept(ctx, s, t, e)
  {}

  lemma QuietAfterUsers(ctx: Context, s: State, t: State, u: State, e: Event)
    requires UsersKept(ctx, s, t, e) && Quiet(t, u)
    ensures UsersKept(ctx, s, u, e)
  {
    hide Vouches;
  }

  lemma AdmittedUsers(ctx: Context, s: State, p: QPacket, from: Address, env: Env)
    requires Tables(s) && p.packetType == CONNECT && !IsAck(p) && p.signature in s.newClients
    ensures UsersKept(ctx, s, Admitted(ctx, s, p, env), Incoming(p, from, env))
  {
    hide PresentedTicket;
  }

  lemma ConnectUsers(ctx: Context, s: State, p: QPacket, from: Address, env: Env)
    requires Tables(s) && p.packetType == CONNECT && !IsAck(p)
    ensures UsersKept(ctx, s, HandleConnect(ctx, s, p, from, env), Incoming(p, from, env))
  {
    hide SendAck, Quiet, UsersKept, AcceptTicket, Vouches, Admitted;
    if p.connSignature.Some? && p.signature in s.newClients {
      ConnectAdmits(ctx, s, p, from, env);
      AdmittedUsers(ctx, s, p, from, env);
      QuietAfterUsers(ctx, s, Admitted(ctx, s, p, env), HandleConnect(ctx, s, p, from, env), Incoming(p, from, env));
    } else {
      SameUsers(ctx, s, s, Incoming(p, from, env));
    }
  }

  lemma PacketUsers(ctx: Context, ports: set<byte>, s: State, p: QPacket, from: Address, env: Env)
    requires Tables(s)
    ensures UsersKept(ctx, s, HandlePacket(ctx, ports, s, p, from, env), Incoming(p, from, env))
  {
    hide HandleConnect, HandleData, HandlePing, Vouches, SendAck, Quiet, UsersKept;
    var t, e := HandlePacket(ctx, ports, s, p, from, env), Incoming(p, from, env);
    if IsAck(p) {
      SameUsers(ctx, s, s, e);
    } else if p.packetType == SYN {
      SynUsers(ctx, s, p, from, env);
    } else if p.packetType == CONNECT {
      ConnectUsers(ctx, s, p, from, env);
    } else if p.packetType == DATA {
      HandleDataQuiet(ctx, s, ports, p, from, env);
      QuietUsers(ctx, s, t, e);
    } else if p.packetType == DISCONNECT {
      if p.signature in s.clients {
        var removed := RemoveClient(s, p.signature);
        var acknowledged := SendAck(ctx, removed, from, p, s.clients[p.signature], false);
        SendAckQuiet(ctx, removed, from, p, s.clients[p.signature], false);
        QuietUsers(ctx, removed, acknowledged, e);
        UsersOfObjects(ctx, removed, acknowledged, s, t, e);
      } else {
        SameUsers(ctx, s, s, e);
      }
    } else if p.packetType == PING {
      HandlePingQuiet(ctx, s, p, from, env.now);
      QuietUsers(ctx, s, t, e);
    } else {
      SameUsers(ctx, s, s, e);
    }
  }

  lemma SameUsers(ctx: Context, s: State, t: State, e: Event)
    requires t.objects == s.objects
    ensures UsersKept(ctx, s, t, e)
  {}

  lemma UsersOfObjects(ctx: Context, s: State, t: State, s': State, t': State, e: Event)
    requires UsersKept(ctx, s, t, e) && s'.objects == s.objects && t'.objects == t.objects
    ensures UsersKept(ctx, s', t', e)
  {}

  lemma SynUsers(ctx: Context, s: State, p: QPacket, from: Address, env: Env)
    requires Tables(s)
    ensures UsersKept(ctx, s, HandleSyn(ctx, s, p, from, env), Incoming(p, from, env))
  {
    hide SendAck;
    var t := WithNew(s, NewClient(from, env.signature, env.now));
    SendAckQuiet(ctx, t, from, p.(connSignature := Some(env.signature)), |s.objects|, false);
  }

  lemma StepUsers(ctx: Context, ports: set<byte>, s: State, e: Event)
    requires Tables(s) && !e.LoggedIn?
    ensures UsersKept(ctx, s, Step(ctx, ports, s, e), e)
  {
    hide HandlePacket, ExpireClients, Complete, SendRequest, UsersKept, Quiet;
    var t := Step(ctx, ports, s, e);
    match e
    case Incoming(p, from, env) => PacketUsers(ctx, ports, s, p, from, env);
    case Completed(k, response) =>
      CompleteQuiet(ctx, s, k, response);
      QuietUsers(ctx, s, t, e);
    case Requested(client, p) =>
      if client < |s.objects| {
        SendRequestQuiet(ctx, s, client, p);
        QuietUsers(ctx, s, t, e);
      } else {
        SameUsers(ctx, s, s, e);
      }
    case Tick(now) =>
      ExpireCloses(s, now);
      SameUsers(ctx, s, t, e);
  }

  lemma VouchedStep(ctx: Context, s: State, t: State, es: seq<Event>, e: Event)
    requires LoginsVouched(ctx, s, es) && UsersKept(ctx, s, t, e)
    ensures LoginsVouched(ctx, t, es + [e])
  {
    hide Vouches;
    forall i | 0 <= i < |t.objects|
      ensures t.objects[i].userId.Some? <==> t.objects[i].connectionId.Some?
      ensures t.objects[i].userId.Some? ==>
                exists v :: v in es + [e] && Vouches(ctx, v, t.objects[i].serverSignature, t.objects[i].userId.value)
    {
      assert e in es + [e];
      if i < |s.objects| && t.objects[i].userId == s.objects[i].userId && t.objects[i].userId.Some?
         && t.objects[i].serverSignature == s.objects[i].serverSignature
         && t.objects[i].connectionId == s.objects[i].connectionId {
        var v :| v in es && Vouches(ctx, v, s.objects[i].serverSignature, s.objects[i].userId.value);
        assert v in es + [e];
      }
    }
  }

  /**
   * On the secure service, where only CONNECT logs in, a client has a user exactly when it has a
   * connection id, and some CONNECT under its signature presented a ticket for that very user which
   * the server could open and which had not expired.
   */
  lemma {:induction false} LoginsAreVouched(ctx: Context, ports: set<byte>, es: seq<Event>)
    requires Rc4.ValidKey(ctx.cryptoKey)
    requires FreshRun(ctx, ports, Initial(), es) && Run(ctx, ports, Initial(), es).accepted <= WRAP
    requires forall e :: e in es ==> !e.LoggedIn?
    ensures LoginsVouched(ctx, Run(ctx, ports, Initial(), es), es)
    decreases |es|
  {
    hide Inv, Step, Fresh, LoginsVouched, UsersKept;
    if es == [] {
      NoLogins(ctx);
    } else {
      var init, last := es[..|es| - 1], es[|es| - 1];
      var before := Run(ctx, ports, Initial(), init);
      StepCloses(ctx, ports, before, last);
      LoginsAreVouched(ctx, ports, init);
      InitialInv();
      RunKeepsInv(ctx, ports, Initial(), init);
      InvTables(before);
      StepUsers(ctx, ports, before, last);
      VouchedStep(ctx, before, Step(ctx, ports, before, last), init, last);
      assert es == init + [last];
    }
  }

  lemma NoLogins(ctx: Context)
    ensures LoginsVouched(ctx, Initial(), [])
  {}

  /**
   * So once the login check of the secure service has passed, a client's registration finds its
   * connection id, and as long as it is connected other clients find it by that id.
   */
  lemma RegistrationFindsId(ctx: Context, ports: set<byte>, es: seq<Event>, i: nat)
    requires Rc4.ValidKey(ctx.cryptoKey)
    requires FreshRun(ctx, ports, Initial(), es) && Run(ctx, ports, Initial(), es).accepted <= WRAP
    requires forall e :: e in es ==> !e.LoggedIn?
    requires i < |Run(ctx, ports, Initial(), es).objects| && Run(ctx, ports, Initial(), es).objects[i].userId.Some?
    ensures var s := Run(ctx, ports, Initial(), es);
            && s.objects[i].connectionId.Some?
            && (IsConnected(s, i) ==> ClientByConnectionId(s, s.objects[i].connectionId.value) == Some(i))
  {
    hide Run, FreshRun, Vouches, ClientByConnectionId;
    LoginsAreVouched(ctx, ports, es);
    LookupIsExact(ctx, ports, es, Run(ctx, ports, Initial(), es).objects[i].connectionId.value, i);
  }
}
