/** How long a response may be, and how response packets are numbered. */
module ResponseLimits {
  import opened Basics
  import opened Packets
  import opened Datagrams
  import opened Server
  import opened Registry
  import opened Runs
  import opened ResponseStream

  // ---- the limit of 256 fragments ----

  /** How many of the first `n` of more than 256 fragments end a message, at least. */
  function Ends(count: nat, n: nat): nat {
    (if n > count - 257 then 1 else 0) + (if n == count then 1 else 0)
  }

  lemma EndsGrow(count: nat, n: nat)
    requires n < count && count > 256
    ensures Ends(count, n + 1) <= Ends(count, n) + if (count - 1 - n) % 256 == 0 then 1 else 0
  {}

  lemma ManyFragments(size: nat)
    requires size > MAX_RESPONSE
    ensures FragmentCount(size) > 256 && Ends(FragmentCount(size), 0) == 0
  {}

  /** With more fragments, one before the last already carries number 0 and splits the message. */
  lemma {:induction false} SplitEarly(ctx: Context, s: State, call: Call, response: seq<byte>, n: nat)
    requires ValidContext(ctx) && SecureCall(call) && call.client < |s.objects|
    requires |response| > MAX_RESPONSE && n <= FragmentCount(|response|)
    ensures |Received(ctx, SendFragments(ctx, s, call, response, n).sent, call.client).messages| >=
            |Received(ctx, s.sent, call.client).messages| + Ends(FragmentCount(|response|), n)
    ensures SendFragments(ctx, s, call, response, n).messages == s.messages
    decreases n
  {
    hide SendFragment, Received, Chunk, Ends, FragmentCount, ValidContext;
    ManyFragments(|response|);
    if n == 0 {
    } else {
      SplitEarly(ctx, s, call, response, n - 1);
      EndsGrow(FragmentCount(|response|), n - 1);
      FragmentReceived(ctx, SendFragments(ctx, s, call, response, n - 1), call, response, n - 1, call.client);
    }
  }

  /** A nonempty response reaches an up-to-date client as one message exactly when it has at most 256 fragments. */
  lemma ResponseLimit(ctx: Context, s: State, call: Call, response: seq<byte>)
    requires ValidContext(ctx) && SecureCall(call) && call.client < |s.objects|
    requires UpToDate(ctx, s, call.client, []) && response != []
    ensures UpToDate(ctx, SendMessage(ctx, s, call, response), call.client, []) <==> |response| <= 256_000
  {
    hide Received, SendFragments, MessagesFor;
    if |response| <= MAX_RESPONSE {
      MessageReceived(ctx, s, call, response, call.client);
    } else {
      ManyFragments(|response|);
      SplitEarly(ctx, s, call, response, FragmentCount(|response|));
      MessagesSnoc(s.messages, Message(call.client, response), call.client);
    }
  }

  // ---- sequence numbers ----

  /** The packets of the response datagrams sent for client `i`, one list a datagram. */
  function Responses(ctx: Context, sent: seq<Sent>, i: nat): seq<seq<QPacket>> {
    if sent == [] then [] else
    var before := Responses(ctx, sent[..|sent| - 1], i);
    var last := sent[|sent| - 1];
    if last.client == i && last.kind == Response then before + [Split(ctx, last.data)] else before
  }

  lemma ResponsesSnoc(ctx: Context, sent: seq<Sent>, x: Sent, i: nat)
    ensures Responses(ctx, sent + [x], i) ==
            if x.client == i && x.kind == Response then Responses(ctx, sent, i) + [Split(ctx, x.data)]
            else Responses(ctx, sent, i)
  {
    assert (sent + [x])[..|sent|] == sent;
  }

  /** The k-th of them is a single packet with sequence number 1 + k, modulo 2^16. */
  ghost predicate Counted(rs: seq<seq<QPacket>>) {
    forall k :: 0 <= k < |rs| ==> |rs[k]| == 1 && rs[k][0].sequence == (1 + k) % 0x1_0000
  }

  ghost predicate InSequence(ctx: Context, s: State) {
    forall i: nat ::
      && Counted(Responses(ctx, s.sent, i))
      && (i >= |s.objects| ==> Responses(ctx, s.sent, i) == [])
      && (i < |s.objects| ==> s.objects[i].serverSequenceId == (1 + |Responses(ctx, s.sent, i)|) % 0x1_0000)
  }

  /** No response was sent, and no counter of one was moved; new clients start at 1. */
  ghost predicate NoResponse(ctx: Context, s: State, t: State) {
    && |s.objects| <= |t.objects|
    && (forall i: nat :: Responses(ctx, t.sent, i) == Responses(ctx, s.sent, i))
    && (forall i: nat :: i < |t.objects| ==>
          t.objects[i].serverSequenceId == if i < |s.objects| then s.objects[i].serverSequenceId else 1)
  }

  lemma NoResponseKeeps(ctx: Context, s: State, t: State)
    requires InSequence(ctx, s) && NoResponse(ctx, s, t)
    ensures InSequence(ctx, t)
  {
    forall i: nat
      ensures Counted(Responses(ctx, t.sent, i))
      ensures i >= |t.objects| ==> Responses(ctx, t.sent, i) == []
      ensures i < |t.objects| ==> t.objects[i].serverSequenceId == (1 + |Responses(ctx, t.sent, i)|) % 0x1_0000
    {
      assert Responses(ctx, t.sent, i) == Responses(ctx, s.sent, i);
    }
  }

  lemma PacketNoResponse(ctx: Context, s: State, client: nat, kind: Kind, to: Address, p: QPacket)
    requires kind != Response
    ensures NoResponse(ctx, s, SendPacket(ctx, s, client, kind, to, p))
  {
    hide Serialize, Responses;
    var t := SendPacket(ctx, s, client, kind, to, p);
    if t.sent != s.sent {
      forall i: nat ensures Responses(ctx, t.sent, i) == Responses(ctx, s.sent, i) {
        ResponsesSnoc(ctx, s.sent, t.sent[|s.sent|], i);
      }
    }
  }

  /** Objects may change in anything but the counter. */
  lemma SilentChange(ctx: Context, s: State, t: State)
    requires t.sent == s.sent && |s.objects| <= |t.objects|
    requires forall i: nat :: i < |t.objects| ==>
               t.objects[i].serverSequenceId == if i < |s.objects| then s.objects[i].serverSequenceId else 1
    ensures NoResponse(ctx, s, t)
  {}

  lemma CountedSnoc(rs: seq<seq<QPacket>>, p: QPacket)
    requires Counted(rs) && p.sequence == (1 + |rs|) % 0x1_0000
    ensures Counted(rs + [[p]])
  {}

  lemma NextSequence(n: nat)
    ensures ((1 + n) % 0x1_0000 + 1) % 0x1_0000 == (2 + n) % 0x1_0000
  {}

  /** One more response packet, with the client's next number, keeps all clients in sequence. */
  lemma ResponseInSequence(ctx: Context, s: State, t: State, x: Sent, p: QPacket)
    requires InSequence(ctx, s) && x.client < |s.objects| && x.kind == Response && t.sent == s.sent + [x]
    requires Split(ctx, x.data) == [p] && p.sequence == s.objects[x.client].serverSequenceId
    requires |t.objects| == |s.objects|
    requires forall i: nat :: i < |s.objects| && i != x.client ==> t.objects[i] == s.objects[i]
    requires t.objects[x.client].serverSequenceId == (s.objects[x.client].serverSequenceId + 1) % 0x1_0000
    ensures InSequence(ctx, t)
  {
    hide Responses, Split, Counted;
    forall i: nat
      ensures Counted(Responses(ctx, t.sent, i))
      ensures i >= |t.objects| ==> Responses(ctx, t.sent, i) == []
      ensures i < |t.objects| ==> t.objects[i].serverSequenceId == (1 + |Responses(ctx, t.sent, i)|) % 0x1_0000
    {
      ResponsesSnoc(ctx, s.sent, x, i);
      assert Counted(Responses(ctx, s.sent, i));
      if i == x.client {
        CountedSnoc(Responses(ctx, s.sent, i), p);
        NextSequence(|Responses(ctx, s.sent, i)|);
      }
    }
  }

  lemma FragmentInSequence(ctx: Context, s: State, call: Call, response: seq<byte>, n: nat)
    requires ValidContext(ctx) && SecureCall(call) && call.client < |s.objects| && n < FragmentCount(|response|)
    requires InSequence(ctx, s)
    ensures InSequence(ctx, SendFragment(ctx, s, call, response, n))
  {
    hide Serialize, Arrives, Arrived, InSequence, ResponsePacket, Outgoing, Split;
    var c := s.objects[call.client];
    var p := Outgoing(ResponsePacket(call, c, response, n));
    FragmentArrives(ctx, call, c, response, n);
    ArrivesSerializes(ctx, p);
    SplitOne(ctx, p);
    var x := Sent(call.client, Response, call.from, p, Serialize(ctx, p).value);
    ResponseInSequence(ctx, s, SendFragment(ctx, s, call, response, n), x, Arrived(ctx, p));
  }

  lemma {:induction false} FragmentsInSequence(ctx: Context, s: State, call: Call, response: seq<byte>, n: nat)
    requires ValidContext(ctx) && SecureCall(call) && call.client < |s.objects| && n <= FragmentCount(|response|)
    requires InSequence(ctx, s)
    ensures InSequence(ctx, SendFragments(ctx, s, call, response, n))
    decreases n
  {
    hide InSequence, SendFragment;
    if n == 0 {
    } else {
      FragmentsInSequence(ctx, s, call, response, n - 1);
      FragmentInSequence(ctx, SendFragments(ctx, s, call, response, n - 1), call, response, n - 1);
    }
  }

  lemma MessageInSequence(ctx: Context, s: State, call: Call, response: seq<byte>)
    requires ValidContext(ctx) && SecureCall(call) && call.client < |s.objects| && InSequence(ctx, s)
    ensures InSequence(ctx, SendMessage(ctx, s, call, response))
  {
    hide InSequence, SendFragments, NoResponse;
    FragmentsInSequence(ctx, s, call, response, FragmentCount(|response|));
    var t := SendFragments(ctx, s, call, response, FragmentCount(|response|));
    SilentChange(ctx, t, SendMessage(ctx, s, call, response));
    NoResponseKeeps(ctx, t, SendMessage(ctx, s, call, response));
  }

  lemma DeliverInSequence(ctx: Context, s: State, ports: set<byte>, p: QPacket, from: Address, client: nat,
                          payload: seq<byte>, env: Env)
    requires ValidContext(ctx) && SecurePorts(ports) && client < |s.objects| && InSequence(ctx, s)
    ensures InSequence(ctx, Deliver(ctx, s, ports, p, from, client, payload, env))
  {
    hide InSequence, SendMessage, NoResponse;
    if VPortToByte(p.destination) in ports {
      var call := Call(client, from, p.source, p.destination);
      var s' := s.(deliveries := s.deliveries + [Delivery(client, payload)]);
      SilentChange(ctx, s, s');
      NoResponseKeeps(ctx, s, s');
      match env.handler(payload) {
        case Returns(response) => MessageInSequence(ctx, s', call, response);
        case Promises =>
          SilentChange(ctx, s', s'.(pending := s'.pending + [call]));
          NoResponseKeeps(ctx, s', s'.(pending := s'.pending + [call]));
        case Throws =>
      }
    }
  }

  lemma AckInSequence(ctx: Context, s: State, t: State, to: Address, p: QPacket, client: nat, keep: bool)
    requires client < |t.objects| && InSequence(ctx, s)
    requires t.sent == s.sent && |s.objects| <= |t.objects|
    requires forall i: nat :: i < |t.objects| ==>
               t.objects[i].serverSequenceId == if i < |s.objects| then s.objects[i].serverSequenceId else 1
    ensures InSequence(ctx, SendAck(ctx, t, to, p, client, keep))
  {
    hide InSequence, NoResponse, SendPacket;
    SilentChange(ctx, s, t);
    NoResponseKeeps(ctx, s, t);
    PacketNoResponse(ctx, t, client, Ack, to, AckPacket(p, t.objects[client], keep));
    NoResponseKeeps(ctx, t, SendAck(ctx, t, to, p, client, keep));
  }

  lemma DataInSequence(ctx: Context, s: State, ports: set<byte>, p: QPacket, from: Address, env: Env)
    requires ValidContext(ctx) && SecurePorts(ports) && Closed(s) && InSequence(ctx, s)
    ensures InSequence(ctx, HandleData(ctx, s, ports, p, from, env))
  {
    hide InSequence, NoResponse, SendAck, Deliver, Store, Assemble;
    if p.signature in s.clients {
      var client := s.clients[p.signature];
      var c := s.objects[client].(lastSeen := env.now);
      var s0 := Update(s, client, c);
      var s1 := SendAck(ctx, s0, from, p, client, false);
      AckInSequence(ctx, s, s0, from, p, client, false);
      AckKeepsCalls(ctx, s0, from, p, client, false);
      if p.fragmentId.None? {
        DeliverInSequence(ctx, s1, ports, p, from, client, p.payload, env);
      } else if p.fragmentId.value % 256 != 0 {
        SilentChange(ctx, s1, HandleData(ctx, s, ports, p, from, env));
        NoResponseKeeps(ctx, s1, HandleData(ctx, s, ports, p, from, env));
      } else {
        var s2 := Update(s1, client, c.(packetFragments := map[]));
        SilentChange(ctx, s1, s2);
        NoResponseKeeps(ctx, s1, s2);
        var message := Assemble(c.packetFragments, p.payload);
        if message.Some? {
          DeliverInSequence(ctx, s2, ports, p, from, client, message.value, env);
        }
      }
    }
  }

  lemma ConnectInSequence(ctx: Context, s: State, p: QPacket, from: Address, env: Env)
    requires Closed(s) && InSequence(ctx, s)
    ensures InSequence(ctx, HandleConnect(ctx, s, p, from, env))
  {
    hide InSequence, SendAck, PresentedTicket, Challenge;
    if p.connSignature.Some? && p.signature in s.newClients {
      var client := s.newClients[p.signature];
      var c := s.objects[client].(clientSignature := p.connSignature, serverSession := env.session,
                                  clientSession := p.sessionId);
      var s1 := Promoted(s, p.signature, c);
      var (s2, reply) := if p.payload == [] then (s1, [])
                         else AcceptTicket(ctx, s1, client, p.signature, p.payload, env.now);
      AckInSequence(ctx, s, s2, from, p.(connSignature := Some(0), payload := reply), client, reply != []);
    }
  }

  lemma PacketInSequence(ctx: Context, s: State, ports: set<byte>, p: QPacket, from: Address, env: Env)
    requires ValidContext(ctx) && SecurePorts(ports) && Closed(s) && InSequence(ctx, s)
    ensures InSequence(ctx, HandlePacket(ctx, ports, s, p, from, env))
  {
    hide HandleConnect, HandleData, InSequence, SendAck, NoResponse;
    if IsAck(p) {
    } else if p.packetType == SYN {
      var t := WithNew(s, NewClient(from, env.signature, env.now));
      AckInSequence(ctx, s, t, from, p.(connSignature := Some(env.signature)), |s.objects|, false);
    } else if p.packetType == CONNECT {
      ConnectInSequence(ctx, s, p, from, env);
    } else if p.packetType == DATA {
      DataInSequence(ctx, s, ports, p, from, env);
    } else if p.packetType == DISCONNECT && p.signature in s.clients {
      var removed := RemoveClient(s, p.signature);
      AckInSequence(ctx, s, removed, from, p, s.clients[p.signature], false);
      var t := SendAck(ctx, removed, from, p, s.clients[p.signature], false);
      SilentChange(ctx, t, HandleDisconnect(ctx, s, p, from));
      NoResponseKeeps(ctx, t, HandleDisconnect(ctx, s, p, from));
    } else if p.packetType == PING && p.signature in s.clients {
      var client := s.clients[p.signature];
      AckInSequence(ctx, s, Update(s, client, s.objects[client].(lastSeen := env.now)), from, p, client, false);
    }
  }

  lemma CompleteInSequence(ctx: Context, s: State, k: nat, response: Option<seq<byte>>)
    requires ValidContext(ctx) && Closed(s) && InSequence(ctx, s) && SecureCalls(s)
    ensures InSequence(ctx, Complete(ctx, s, k, response))
  {
    hide InSequence, NoResponse, SendMessage;
    if k < |s.pending| {
      var s' := s.(pending := s.pending[..k] + s.pending[k + 1..]);
      SilentChange(ctx, s, s');
      NoResponseKeeps(ctx, s, s');
      if response.Some? {
        MessageInSequence(ctx, s', s.pending[k], response.value);
      }
    }
  }

  lemma RequestInSequence(ctx: Context, s: State, client: nat, p: QPacket)
    requires client < |s.objects| && InSequence(ctx, s)
    ensures InSequence(ctx, SendRequest(ctx, s, client, p))
  {
    hide InSequence, NoResponse, SendPacket, Serialize, RequestPacket;
    var q := RequestPacket(s.objects[client], p);
    var c := s.objects[client];
    var s' := s.(objects := s.objects[client := c.(clientSequenceId := (c.clientSequenceId + 1) % 0x1_0000)],
                 messages := if Serialize(ctx, Outgoing(q)).Ok? then s.messages + [Message(client, p.payload)]
                             else s.messages);
    SilentChange(ctx, s, s');
    NoResponseKeeps(ctx, s, s');
    PacketNoResponse(ctx, s', client, ServerRequest, c.address, q);
    NoResponseKeeps(ctx, s', SendRequest(ctx, s, client, p));
  }

  lemma StepInSequence(ctx: Context, ports: set<byte>, s: State, e: Event)
    requires ValidContext(ctx) && SecurePorts(ports) && Closed(s) && InSequence(ctx, s) && SecureCalls(s)
    ensures InSequence(ctx, Step(ctx, ports, s, e))
  {
    hide HandlePacket, InSequence, NoResponse, Complete, SendRequest, ValidContext, SecurePorts, SecureCalls;
    match e
    case Incoming(p, from, env) => PacketInSequence(ctx, s, ports, p, from, env);
    case Completed(k, response) => CompleteInSequence(ctx, s, k, response);
    case Requested(client, p) =>
      if client < |s.objects| {
        RequestInSequence(ctx, s, client, p);
      }
    case _ =>
      SilentChange(ctx, s, Step(ctx, ports, s, e));
      NoResponseKeeps(ctx, s, Step(ctx, ports, s, e));
  }

  lemma {:induction false} RunInSequence(ctx: Context, ports: set<byte>, es: seq<Event>)
    requires ValidContext(ctx) && SecurePorts(ports)
    requires forall e :: e in es ==> Modest(ctx, e)
    ensures InSequence(ctx, Run(ctx, ports, Initial(), es))
    decreases |es|
  {
    hide Step, Modest, InSequence, Synced;
    if es == [] {
      NothingSent(ctx);
    } else {
      var init := es[..|es| - 1];
      var before := Run(ctx, ports, Initial(), init);
      RunInSequence(ctx, ports, init);
      InitialSynced(ctx);
      RunSynced(ctx, ports, Initial(), init);
      SyncedCalls(ctx, before);
      StepInSequence(ctx, ports, before, es[|es| - 1]);
    }
  }

  lemma NothingSent(ctx: Context)
    ensures InSequence(ctx, Initial())
  {}

  /** In every run, the k-th response datagram for a client parses to one packet with sequence (1 + k) mod 2^16. */
  lemma ResponsesAreNumbered(ctx: Context, ports: set<byte>, es: seq<Event>, i: nat, k: nat)
    requires ValidContext(ctx) && SecurePorts(ports)
    requires forall e :: e in es ==> Modest(ctx, e)
    requires k < |Responses(ctx, Run(ctx, ports, Initial(), es).sent, i)|
    ensures var packets := Responses(ctx, Run(ctx, ports, Initial(), es).sent, i)[k];
            |packets| == 1 && packets[0].sequence == (1 + k) % 0x1_0000
  {
    hide Run, Modest;
    RunInSequence(ctx, ports, es);
    assert Counted(Responses(ctx, Run(ctx, ports, Initial(), es).sent, i));
  }
}
