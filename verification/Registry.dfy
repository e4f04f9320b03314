/** What every step of the server keeps: its tables agree, and every departure is reported once. */
module Registry {
  import opened Basics
  import Rc4
  import opened Packets
  import opened Server
  import opened Frames

  const WRAP := 0x1_0000_0000

  // ---- the invariant ----

  predicate IsNew(s: State, i: nat) {
    i < |s.objects| && s.objects[i].serverSignature in s.newClients && s.newClients[s.objects[i].serverSignature] == i
  }

  predicate IsConnected(s: State, i: nat) {
    i < |s.objects| && s.objects[i].serverSignature in s.clients && s.clients[s.objects[i].serverSignature] == i
  }

  /** Each table lists clients under their own signature, and no signature is in both. */
  ghost predicate Tables(s: State) {
    && Closed(s)
    && (forall sig :: sig in s.newClients ==> s.objects[s.newClients[sig]].serverSignature == sig)
    && (forall sig :: sig in s.clients ==> s.objects[s.clients[sig]].serverSignature == sig)
    && (forall sig :: sig in s.newClients ==> sig !in s.clients)
  }

  /** A client has a client signature from its CONNECT on, and a connection id only after that. */
  ghost predicate Stages(s: State) {
    forall i :: 0 <= i < |s.objects| ==>
      && (IsNew(s, i) ==> s.objects[i].clientSignature.None?)
      && (IsConnected(s, i) ==> s.objects[i].clientSignature.Some?)
      && (s.objects[i].connectionId.Some? ==> s.objects[i].clientSignature.Some?)
  }

  /** The index is the inverse of the connected clients' connection ids. */
  ghost predicate Indexed(s: State) {
    && (forall id :: id in s.connectionIds ==>
          s.connectionIds[id] in s.clients && s.clients[s.connectionIds[id]] < |s.objects|
          && s.objects[s.clients[s.connectionIds[id]]].connectionId == Some(id))
    && (forall i :: 0 <= i < |s.objects| && IsConnected(s, i) && s.objects[i].connectionId.Some? ==>
          s.objects[i].connectionId.value in s.connectionIds
          && s.connectionIds[s.objects[i].connectionId.value] == s.objects[i].serverSignature)
  }

  /** Connection ids in use are among the last `accepted` ones handed out. */
  ghost predicate Numbered(s: State) {
    && s.nextConnectionId == (FIRST_CONNECTION_ID + s.accepted) % WRAP
    && forall id :: id in s.connectionIds ==> (id - FIRST_CONNECTION_ID) % WRAP < s.accepted
  }

  /** A client is reported once it was connected and is no longer, and never otherwise. */
  ghost predicate Reported(s: State) {
    forall i: nat :: (s.disconnected + s.expired)[i] ==
      if i < |s.objects| && s.objects[i].clientSignature.Some? && !IsConnected(s, i) then 1 else 0
  }

  ghost predicate Inv(s: State) {
    Tables(s) && Stages(s) && Indexed(s) && Numbered(s) && Reported(s)
  }

  /** A SYN packet is met by a random signature that no client in the tables has. */
  predicate Fresh(s: State, e: Event) {
    e.Incoming? && e.packet.packetType == SYN && !IsAck(e.packet) ==>
      e.env.signature !in s.newClients && e.env.signature !in s.clients
  }

  lemma InitialInv()
    ensures Inv(Initial())
  {}

  // ---- steps that touch no table ----

  /** What the tables and reports depend on. */
  predicate SameIdentity(a: Client, b: Client) {
    && a.address == b.address && a.serverSignature == b.serverSignature && a.clientSignature == b.clientSignature
    && a.serverSession == b.serverSession && a.clientSession == b.clientSession && a.connectionId == b.connectionId
  }

  ghost predicate Similar(s: State, t: State) {
    && t.newClients == s.newClients && t.clients == s.clients && t.connectionIds == s.connectionIds
    && t.nextConnectionId == s.nextConnectionId && t.accepted == s.accepted
    && t.disconnected == s.disconnected && t.expired == s.expired
    && |t.objects| == |s.objects|
    && (forall i :: 0 <= i < |s.objects| ==> SameIdentity(s.objects[i], t.objects[i]))
  }

  /** Only counters, fragments, times, calls in progress and output may differ. */
  ghost predicate Quiet(s: State, t: State) {
    Similar(s, t) && forall i :: 0 <= i < |s.objects| ==> t.objects[i].userId == s.objects[i].userId
  }

  ghost predicate CallsClosed(s: State) {
    forall i :: 0 <= i < |s.pending| ==> s.pending[i].client < |s.objects|
  }

  lemma SimilarKeepsInv(s: State, t: State)
    requires Inv(s) && Similar(s, t) && CallsClosed(t)
    ensures Inv(t)
  {
    assert forall i: nat :: IsNew(t, i) == IsNew(s, i) && IsConnected(t, i) == IsConnected(s, i);
    assert Tables(t);
  }

  lemma QuietKeepsInv(s: State, t: State)
    requires Inv(s) && Quiet(s, t) && CallsClosed(t)
    ensures Inv(t)
  {
    hide Inv;
    SimilarKeepsInv(s, t);
  }

  lemma SendMessageQuiet(ctx: Context, s: State, call: Call, response: seq<byte>)
    requires call.client < |s.objects|
    ensures Quiet(s, SendMessage(ctx, s, call, response))
    ensures SendMessage(ctx, s, call, response).pending == s.pending
  {
    hide SendMessage;
    MessageFrame(ctx, s, call, response);
  }

  lemma HandleDataQuiet(ctx: Context, s: State, ports: set<byte>, p: QPacket, from: Address, env: Env)
    requires Closed(s)
    ensures Quiet(s, HandleData(ctx, s, ports, p, from, env))
    ensures CallsClosed(HandleData(ctx, s, ports, p, from, env))
  {
    hide HandleData, FeedPacket, Brought, Said;
    if p.signature in s.clients {
      DataFrame(ctx, s, ports, p, from, env);
    } else {
      UnknownData(ctx, s, ports, p, from, env);
    }
  }

  lemma HandlePingQuiet(ctx: Context, s: State, p: QPacket, from: Address, now: int)
    requires Closed(s)
    ensures Quiet(s, HandlePing(ctx, s, p, from, now)) && CallsClosed(HandlePing(ctx, s, p, from, now))
  {
    hide Serialize;
  }

  lemma CompleteQuiet(ctx: Context, s: State, i: nat, response: Option<seq<byte>>)
    requires Closed(s)
    ensures Quiet(s, Complete(ctx, s, i, response)) && CallsClosed(Complete(ctx, s, i, response))
  {
    hide SendMessage;
    if i < |s.pending| {
      var s' := s.(pending := s.pending[..i] + s.pending[i + 1..]);
      if response.Some? {
        SendMessageQuiet(ctx, s', s.pending[i], response.value);
      }
    }
  }

  lemma SendRequestQuiet(ctx: Context, s: State, client: nat, p: QPacket)
    requires Closed(s) && client < |s.objects|
    ensures Quiet(s, SendRequest(ctx, s, client, p)) && CallsClosed(SendRequest(ctx, s, client, p))
  {
    hide Serialize;
  }

  lemma SendAckQuiet(ctx: Context, s: State, to: Address, p: QPacket, client: nat, keep: bool)
    requires client < |s.objects| && CallsClosed(s)
    ensures Quiet(s, SendAck(ctx, s, to, p, client, keep)) && CallsClosed(SendAck(ctx, s, to, p, client, keep))
  {
    hide Serialize;
  }

  // ---- steps that move clients ----

  function WithNew(s: State, c: Client): State {
    s.(objects := s.objects + [c], newClients := s.newClients[c.serverSignature := |s.objects|])
  }

  /** Apart from client `i`, every client of `s` is in `t` what it was and where it was. */
  ghost predicate OthersStay(s: State, t: State, i: nat) {
    && |s.objects| <= |t.objects|
    && (forall k: nat :: k < |t.objects| && k != i ==> k < |s.objects| && t.objects[k] == s.objects[k])
    && (forall k: nat :: k != i ==> IsNew(t, k) == IsNew(s, k) && IsConnected(t, k) == IsConnected(s, k))
  }

  lemma StagesKept(s: State, t: State, i: nat)
    requires Stages(s) && OthersStay(s, t, i) && i < |t.objects|
    requires IsNew(t, i) ==> t.objects[i].clientSignature.None?
    requires IsConnected(t, i) ==> t.objects[i].clientSignature.Some?
    requires t.objects[i].connectionId.Some? ==> t.objects[i].clientSignature.Some?
    ensures Stages(t)
  {}

  lemma ReportedKept(s: State, t: State, i: nat)
    requires Reported(s) && OthersStay(s, t, i) && i < |t.objects|
    requires t.disconnected == s.disconnected && t.expired == s.expired
    requires i < |s.objects| && s.objects[i].clientSignature.Some? ==> IsConnected(s, i)
    requires t.objects[i].clientSignature.Some? ==> IsConnected(t, i)
    ensures Reported(t)
  {}

  lemma NewTables(s: State, c: Client)
    requires Tables(s) && c.serverSignature !in s.newClients && c.serverSignature !in s.clients
    ensures var t := WithNew(s, c);
            Tables(t) && OthersStay(s, t, |s.objects|) && !IsConnected(t, |s.objects|)
  {
    var t := WithNew(s, c);
    assert forall i :: 0 <= i < |s.objects| ==> t.objects[i] == s.objects[i];
  }

  lemma NewIndexed(s: State, c: Client)
    requires Indexed(s) && Closed(s)
    requires OthersStay(s, WithNew(s, c), |s.objects|) && !IsConnected(WithNew(s, c), |s.objects|)
    ensures Indexed(WithNew(s, c))
  {
    var t := WithNew(s, c);
    assert forall i :: 0 <= i < |s.objects| ==> t.objects[i] == s.objects[i];
  }

  lemma NewKeepsInv(s: State, c: Client)
    requires Inv(s) && c.serverSignature !in s.newClients && c.serverSignature !in s.clients
    requires c.clientSignature.None? && c.connectionId.None?
    ensures Inv(WithNew(s, c))
  {
    hide Stages, Indexed, Reported, OthersStay, Closed;
    var t := WithNew(s, c);
    InvCloses(s);
    NewTables(s, c);
    StagesKept(s, t, |s.objects|);
    ReportedKept(s, t, |s.objects|);
    NewIndexed(s, c);
  }

  lemma SynKeepsInv(ctx: Context, s: State, p: QPacket, from: Address, env: Env)
    requires Inv(s) && env.signature !in s.newClients && env.signature !in s.clients
    ensures Inv(HandleSyn(ctx, s, p, from, env))
  {
    hide Inv, SendAck, Quiet;
    var c := NewClient(from, env.signature, env.now);
    var t := WithNew(s, c);
    NewKeepsInv(s, c);
    assert Closed(t) by { InvCloses(t); }
    SendAckQuiet(ctx, t, from, p.(connSignature := Some(env.signature)), |s.objects|, false);
    QuietKeepsInv(t, HandleSyn(ctx, s, p, from, env));
  }

  lemma InvCloses(s: State)
    requires Inv(s)
    ensures Closed(s) && CallsClosed(s)
  {}

  /** `c` is the client waiting under `signature`, as its CONNECT leaves it. */
  function Promoted(s: State, signature: u32, c: Client): State
    requires signature in s.newClients && s.newClients[signature] < |s.objects|
  {
    s.(objects := s.objects[s.newClients[signature] := c], newClients := s.newClients - {signature},
       clients := s.clients[signature := s.newClients[signature]])
  }

  lemma PromoteTables(s: State, signature: u32, c: Client)
    requires Tables(s) && signature in s.newClients && c.serverSignature == signature
    ensures var t := Promoted(s, signature, c);
            var client := s.newClients[signature];
            && Tables(t) && OthersStay(s, t, client) && t.objects[client] == c
            && !IsConnected(s, client) && IsConnected(t, client) && !IsNew(t, client)
  {
    var t := Promoted(s, signature, c);
    assert forall i :: 0 <= i < |s.objects| && i != s.newClients[signature] ==> t.objects[i] == s.objects[i];
  }

  lemma PromoteIndexed(s: State, signature: u32, c: Client)
    requires Indexed(s) && Tables(s) && signature in s.newClients
    requires c.serverSignature == signature && c.connectionId.None?
    requires OthersStay(s, Promoted(s, signature, c), s.newClients[signature])
    ensures Indexed(Promoted(s, signature, c))
  {
    var t, client := Promoted(s, signature, c), s.newClients[signature];
    assert t.objects[client] == c;
    forall id | id in t.connectionIds
      ensures t.connectionIds[id] in t.clients && t.clients[t.connectionIds[id]] < |t.objects|
              && t.objects[t.clients[t.connectionIds[id]]].connectionId == Some(id)
    {
      assert s.connectionIds[id] != signature;
      assert s.clients[s.connectionIds[id]] != client;
    }
  }

  lemma PromoteKeepsInv(s: State, signature: u32, c: Client)
    requires Inv(s) && signature in s.newClients
    requires c.serverSignature == signature && c.clientSignature.Some? && c.connectionId.None?
    ensures Inv(Promoted(s, signature, c))
    ensures IsConnected(Promoted(s, signature, c), s.newClients[signature])
  {
    hide Indexed, Reported, OthersStay;
    var t, client := Promoted(s, signature, c), s.newClients[signature];
    assert IsNew(s, client);
    PromoteTables(s, signature, c);
    StagesKept(s, t, client);
    ReportedKept(s, t, client);
    PromoteIndexed(s, signature, c);
  }

  /** The next connection id is not in use while fewer than 2^32 tickets have been accepted. */
  lemma NextIdUnused(s: State)
    requires Numbered(s) && s.accepted < WRAP
    ensures s.nextConnectionId !in s.connectionIds
  {
    Distance(s.accepted);
  }

  lemma Distance(n: nat)
    requires n < WRAP
    ensures ((FIRST_CONNECTION_ID + n) % WRAP - FIRST_CONNECTION_ID) % WRAP == n
  {}

  function Accepted(s: State, client: nat, userId: u32): State
    requires client < |s.objects|
  {
    var id := s.nextConnectionId;
    s.(objects := s.objects[client := s.objects[client].(userId := Some(userId), connectionId := Some(id))],
       connectionIds := s.connectionIds[id := s.objects[client].serverSignature],
       nextConnectionId := (id + 1) % WRAP, accepted := s.accepted + 1)
  }

  lemma AcceptedNumbered(s: State, client: nat, userId: u32)
    requires Numbered(s) && client < |s.objects| && s.accepted < WRAP
    ensures Numbered(Accepted(s, client, userId))
  {
    Distance(s.accepted);
  }

  lemma AcceptTables(s: State, client: nat, userId: u32)
    requires Tables(s) && IsConnected(s, client)
    ensures var t := Accepted(s, client, userId);
            Tables(t) && OthersStay(s, t, client) && IsConnected(t, client) && IsNew(t, client) == IsNew(s, client)
  {
    var t := Accepted(s, client, userId);
    assert forall i :: 0 <= i < |s.objects| && i != client ==> t.objects[i] == s.objects[i];
  }

  lemma AcceptIndexed(s: State, client: nat, userId: u32)
    requires Indexed(s) && Tables(s) && IsConnected(s, client) && s.objects[client].connectionId.None?
    requires s.nextConnectionId !in s.connectionIds
    ensures Indexed(Accepted(s, client, userId))
  {
    var t := Accepted(s, client, userId);
    assert forall i :: 0 <= i < |s.objects| && i != client ==> t.objects[i] == s.objects[i];
    forall id | id in t.connectionIds
      ensures t.connectionIds[id] in t.clients && t.clients[t.connectionIds[id]] < |t.objects|
              && t.objects[t.clients[t.connectionIds[id]]].connectionId == Some(id)
    {
      if id != s.nextConnectionId {
        assert s.clients[s.connectionIds[id]] != client;
      }
    }
    forall i: nat | i < |t.objects| && IsConnected(t, i) && t.objects[i].connectionId.Some?
      ensures t.objects[i].connectionId.value in t.connectionIds
              && t.connectionIds[t.objects[i].connectionId.value] == t.objects[i].serverSignature
    {
      assert IsConnected(s, i);
    }
  }

  lemma AcceptKeepsInv(s: State, client: nat, userId: u32)
    requires Inv(s) && IsConnected(s, client) && s.objects[client].connectionId.None? && s.accepted < WRAP
    ensures Inv(Accepted(s, client, userId))
  {
    hide Indexed, Numbered, Reported, OthersStay;
    var t := Accepted(s, client, userId);
    NextIdUnused(s);
    AcceptedNumbered(s, client, userId);
    AcceptTables(s, client, userId);
    StagesKept(s, t, client);
    ReportedKept(s, t, client);
    AcceptIndexed(s, client, userId);
  }

  lemma ConnectKeepsInv(ctx: Context, s: State, p: QPacket, from: Address, env: Env)
    requires Inv(s) && HandleConnect(ctx, s, p, from, env).accepted <= WRAP
    ensures Inv(HandleConnect(ctx, s, p, from, env))
  {
    if p.connSignature.Some? && p.signature in s.newClients {
      var client := s.newClients[p.signature];
      var c := s.objects[client].(clientSignature := p.connSignature, serverSession := env.session,
                                  clientSession := p.sessionId);
      var s1 := Promoted(s, p.signature, c);
      assert IsNew(s, client);
      PromoteKeepsInv(s, p.signature, c);
      ConnectedKeepsInv(ctx, s1, p, from, client, env);
    }
  }

  lemma ConnectedKeepsInv(ctx: Context, s: State, p: QPacket, from: Address, client: nat, env: Env)
    requires Inv(s) && IsConnected(s, client) && s.objects[client].connectionId.None?
    requires s.objects[client].serverSignature == p.signature
    ensures var (s2, reply) := if p.payload == [] then (s, [])
                               else AcceptTicket(ctx, s, client, p.signature, p.payload, env.now);
            |s2.objects| == |s.objects| &&
            var t := SendAck(ctx, s2, from, p.(connSignature := Some(0), payload := reply), client, reply != []);
            t.accepted <= WRAP ==> Inv(t)
  {
    hide Inv, Quiet, SendAck, PresentedTicket, Challenge;
    var (s2, reply) := if p.payload == [] then (s, [])
                       else AcceptTicket(ctx, s, client, p.signature, p.payload, env.now);
    if s2 != s {
      var internal := PresentedTicket(ctx, p.payload).value;
      assert s2 == Accepted(s, client, internal.principleId);
      if s2.accepted <= WRAP {
        AcceptKeepsInv(s, client, internal.principleId);
      }
    }
    InvCloses(s);
    var t := SendAck(ctx, s2, from, p.(connSignature := Some(0), payload := reply), client, reply != []);
    SendAckQuiet(ctx, s2, from, p.(connSignature := Some(0), payload := reply), client, reply != []);
    QuietAccepted(s2, t);
    if t.accepted <= WRAP {
      QuietKeepsInv(s2, t);
    }
  }

  lemma QuietAccepted(s: State, t: State)
    requires Quiet(s, t)
    ensures t.accepted == s.accepted
  {}

  /** The clients under the signatures `gone` have left the tables and have been reported. */
  ghost predicate Departed(s: State, t: State, gone: set<u32>) {
    && t.objects == s.objects && t.clients == s.clients - gone
    && t.nextConnectionId == s.nextConnectionId && t.accepted == s.accepted
    && (forall id :: id in t.connectionIds <==> id in s.connectionIds && s.connectionIds[id] !in gone)
    && (forall id :: id in t.connectionIds ==> t.connectionIds[id] == s.connectionIds[id])
    && (forall sig :: sig in t.newClients ==> sig in s.newClients && t.newClients[sig] == s.newClients[sig])
    && (forall i: nat :: (t.disconnected + t.expired)[i] == (s.disconnected + s.expired)[i] +
          if i < |s.objects| && IsConnected(s, i) && s.objects[i].serverSignature in gone then 1 else 0)
  }

  lemma DepartTables(s: State, t: State, gone: set<u32>)
    requires Tables(s) && Stages(s) && Numbered(s) && Departed(s, t, gone) && CallsClosed(t)
    ensures Tables(t) && Stages(t) && Numbered(t)
    ensures forall i: nat :: IsConnected(t, i) <==> IsConnected(s, i) && s.objects[i].serverSignature !in gone
  {
    assert forall i: nat :: IsNew(t, i) ==> IsNew(s, i);
  }

  lemma IdStays(s: State, t: State, gone: set<u32>, id: u32)
    requires Tables(s) && Indexed(s) && Departed(s, t, gone) && id in t.connectionIds
    ensures t.connectionIds[id] in t.clients && t.clients[t.connectionIds[id]] < |t.objects|
    ensures t.objects[t.clients[t.connectionIds[id]]].connectionId == Some(id)
  {
    assert s.connectionIds[id] in s.clients;
  }

  lemma ClientStays(s: State, t: State, gone: set<u32>, i: nat)
    requires Indexed(s) && Departed(s, t, gone)
    requires i < |t.objects| && IsConnected(t, i) && t.objects[i].connectionId.Some?
    ensures t.objects[i].connectionId.value in t.connectionIds
    ensures t.connectionIds[t.objects[i].connectionId.value] == t.objects[i].serverSignature
  {
    assert IsConnected(s, i);
  }

  lemma DepartIndexed(s: State, t: State, gone: set<u32>)
    requires Tables(s) && Indexed(s) && Departed(s, t, gone)
    ensures Indexed(t)
  {
    hide Tables, Departed, IsConnected;
    forall id | id in t.connectionIds
      ensures t.connectionIds[id] in t.clients && t.clients[t.connectionIds[id]] < |t.objects|
              && t.objects[t.clients[t.connectionIds[id]]].connectionId == Some(id)
    {
      IdStays(s, t, gone, id);
    }
    forall i: nat | i < |t.objects| && IsConnected(t, i) && t.objects[i].connectionId.Some?
      ensures t.objects[i].connectionId.value in t.connectionIds
              && t.connectionIds[t.objects[i].connectionId.value] == t.objects[i].serverSignature
    {
      ClientStays(s, t, gone, i);
    }
  }

  lemma DepartReported(s: State, t: State, gone: set<u32>)
    requires Stages(s) && Reported(s) && Departed(s, t, gone)
    requires forall i: nat :: IsConnected(t, i) <==> IsConnected(s, i) && s.objects[i].serverSignature !in gone
    ensures Reported(t)
  {
    hide IsNew, IsConnected;
  }

  lemma DepartKeepsInv(s: State, t: State, gone: set<u32>)
    requires Inv(s) && Departed(s, t, gone) && CallsClosed(t)
    ensures Inv(t)
  {
    hide Tables, Stages, Indexed, Numbered, Reported, Departed, CallsClosed, IsConnected;
    DepartTables(s, t, gone);
    DepartIndexed(s, t, gone);
    DepartReported(s, t, gone);
  }

  lemma DisconnectKeepsInv(ctx: Context, s: State, p: QPacket, from: Address)
    requires Inv(s)
    ensures Inv(HandleDisconnect(ctx, s, p, from))
  {
    hide Inv, Departed, SendAck, Similar;
    InvCloses(s);
    if p.signature in s.clients {
      var client := s.clients[p.signature];
      var removed := RemoveClient(s, p.signature);
      var t := removed.(disconnected := removed.disconnected + multiset{client});
      RemovedDeparts(s, p.signature, t);
      DepartKeepsInv(s, t, {p.signature});
      SendAckQuiet(ctx, removed, from, p, client, false);
      SameReports(removed, SendAck(ctx, removed, from, p, client, false), multiset{client});
      QuietKeepsInv(t, HandleDisconnect(ctx, s, p, from));
    }
  }

  lemma SameReports(s: State, t: State, more: multiset<nat>)
    requires Quiet(s, t) && CallsClosed(t)
    ensures Quiet(s.(disconnected := s.disconnected + more), t.(disconnected := t.disconnected + more))
    ensures CallsClosed(t.(disconnected := t.disconnected + more))
  {}

  lemma RemovedDeparts(s: State, signature: u32, t: State)
    requires Inv(s) && signature in s.clients
    requires var removed := RemoveClient(s, signature);
             t == removed.(disconnected := removed.disconnected + multiset{s.clients[signature]})
    ensures Departed(s, t, {signature}) && CallsClosed(t)
  {
    hide Inv, IsConnected;
    InvCloses(s);
    forall id | id in s.connectionIds
      ensures id in RemoveClient(s, signature).connectionIds <==> s.connectionIds[id] != signature
    {
      IdLeaves(s, signature, id);
    }
    forall i: nat ensures i < |s.objects| && IsConnected(s, i) && s.objects[i].serverSignature == signature
                          <==> i == s.clients[signature] {
      ListedAs(s, signature, i);
    }
  }

  lemma IdLeaves(s: State, signature: u32, id: u32)
    requires Inv(s) && signature in s.clients && id in s.connectionIds
    ensures id in RemoveClient(s, signature).connectionIds <==> s.connectionIds[id] != signature
  {
    assert IsConnected(s, s.clients[signature]);
    assert s.objects[s.clients[s.connectionIds[id]]].connectionId == Some(id);
  }

  lemma ListedAs(s: State, signature: u32, i: nat)
    requires Inv(s) && signature in s.clients
    ensures i < |s.objects| && IsConnected(s, i) && s.objects[i].serverSignature == signature
            <==> i == s.clients[signature]
  {}

  lemma ExpireKeepsInv(s: State, now: int)
    requires Inv(s)
    ensures Inv(ExpireClients(s, now))
  {
    hide Inv, Departed;
    InvCloses(s);
    ExpiredDepart(s, now);
    DepartKeepsInv(s, ExpireClients(s, now), SilentClients(s, now));
  }

  lemma IdsLeave(s: State, gone: set<u32>, id: u32)
    requires Inv(s) && gone <= s.clients.Keys && id in s.connectionIds
    ensures id in IdsOf(s, gone) <==> s.connectionIds[id] in gone
  {
    var sig := s.connectionIds[id];
    assert s.objects[s.clients[sig]].connectionId == Some(id);
    forall other | other in gone && other != sig ensures s.objects[s.clients[other]].connectionId != Some(id) {
      assert IsConnected(s, s.clients[other]);
    }
  }

  lemma IndicesLeave(s: State, gone: set<u32>, i: nat)
    requires Inv(s) && gone <= s.clients.Keys
    ensures i in IndicesOf(s, gone) <==> i < |s.objects| && IsConnected(s, i) && s.objects[i].serverSignature in gone
  {
    if i in IndicesOf(s, gone) {
      var sig :| sig in gone && s.clients[sig] == i;
    }
  }

  lemma ExpiredDepart(s: State, now: int)
    requires Inv(s)
    ensures Closed(s) && Departed(s, ExpireClients(s, now), SilentClients(s, now))
  {
    hide Inv, IdsOf, IndicesOf, IsConnected, SilentClients;
    InvCloses(s);
    var gone := SilentClients(s, now);
    forall id | id in s.connectionIds ensures id in IdsOf(s, gone) <==> s.connectionIds[id] in gone {
      IdsLeave(s, gone, id);
    }
    forall i: nat
      ensures i in IndicesOf(s, gone) <==> i < |s.objects| && IsConnected(s, i) && s.objects[i].serverSignature in gone
    {
      IndicesLeave(s, gone, i);
    }
  }

  /**
   * Every step keeps the tables consistent and the reports exact, as long as random signatures are
   * fresh and fewer than 2^32 tickets have been accepted before it.
   */
  lemma StepKeepsInv(ctx: Context, ports: set<byte>, s: State, e: Event)
    requires Rc4.ValidKey(ctx.cryptoKey)
    requires Inv(s) && Fresh(s, e) && Step(ctx, ports, s, e).accepted <= WRAP
    ensures Inv(Step(ctx, ports, s, e))
  {
    hide HandlePacket, ExpireClients, Complete, SendRequest, Inv, Quiet;
    InvCloses(s);
    match e
    case Incoming(p, from, env) => PacketKeepsInv(ctx, ports, s, p, from, env);
    case Completed(i, response) =>
      CompleteQuiet(ctx, s, i, response);
      QuietKeepsInv(s, Step(ctx, ports, s, e));
    case Requested(client, p) =>
      if client < |s.objects| {
        SendRequestQuiet(ctx, s, client, p);
        QuietKeepsInv(s, Step(ctx, ports, s, e));
      }
    case LoggedIn(client, userId) =>
      if client < |s.objects| {
        LoginKeepsInv(s, client, userId);
      }
    case Tick(now) => ExpireKeepsInv(s, now);
  }

  lemma LoginKeepsInv(s: State, client: nat, userId: u32)
    requires Inv(s) && client < |s.objects|
    ensures Inv(Update(s, client, s.objects[client].(userId := Some(userId))))
  {
    hide Inv;
    InvCloses(s);
    SimilarKeepsInv(s, Update(s, client, s.objects[client].(userId := Some(userId))));
  }

  lemma PacketKeepsInv(ctx: Context, ports: set<byte>, s: State, p: QPacket, from: Address, env: Env)
    requires Inv(s) && Fresh(s, Incoming(p, from, env)) && HandlePacket(ctx, ports, s, p, from, env).accepted <= WRAP
    ensures Inv(HandlePacket(ctx, ports, s, p, from, env))
  {
    hide HandleSyn, HandleConnect, HandleData, HandleDisconnect, HandlePing, Inv, Quiet;
    InvCloses(s);
    if IsAck(p) {
    } else if p.packetType == SYN {
      SynKeepsInv(ctx, s, p, from, env);
    } else if p.packetType == CONNECT {
      ConnectKeepsInv(ctx, s, p, from, env);
    } else if p.packetType == DATA {
      HandleDataQuiet(ctx, s, ports, p, from, env);
      QuietKeepsInv(s, HandleData(ctx, s, ports, p, from, env));
    } else if p.packetType == DISCONNECT {
      DisconnectKeepsInv(ctx, s, p, from);
    } else if p.packetType == PING {
      HandlePingQuiet(ctx, s, p, from, env.now);
      QuietKeepsInv(s, HandlePing(ctx, s, p, from, env.now));
    }
  }
}
