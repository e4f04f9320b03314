/** Where datagrams go and what their headers say. */
module Addressing {
  import opened Basics
  import opened Packets
  import opened Server
  import opened Frames
  import opened Registry
  import opened Runs
  import opened ResponseStream

  function Signature(c: Client): u32 {
    if c.clientSignature.Some? then c.clientSignature.value else 0
  }

  /** `x` is an acknowledgement or a response to client `c`, with the ports of what it answers exchanged. */
  ghost predicate AnswerTo(ctx: Context, x: Sent, c: Client, to: Address, source: VPort, destination: VPort) {
    && x.to == to && x.packet.source == source && x.packet.destination == destination
    && x.packet.signature == Signature(c) && x.packet.sessionId == c.serverSession
    && (|| (x.kind == Ack && x.packet.flags == 9)
        || (x.kind == Response && x.packet.flags == 14 && x.packet.packetType == 2 && x.packet.useCompression))
    && Serialize(ctx, x.packet) == Ok(x.data)
  }

  /** Clients keep what their packets are signed with. */
  ghost predicate KeepsSigning(s: State, t: State) {
    && |s.objects| <= |t.objects|
    && forall i: nat :: i < |s.objects| ==>
         Signature(t.objects[i]) == Signature(s.objects[i]) && t.objects[i].serverSession == s.objects[i].serverSession
  }

  /** All that was sent from `s` to `t` are answers of this kind, each to the client it was sent for. */
  ghost predicate Answers(ctx: Context, s: State, t: State, to: Address, source: VPort, destination: VPort) {
    && |s.sent| <= |t.sent| && t.sent[..|s.sent|] == s.sent
    && forall k: nat :: |s.sent| <= k < |t.sent| ==>
         t.sent[k].client < |t.objects|
         && AnswerTo(ctx, t.sent[k], t.objects[t.sent[k].client], to, source, destination)
  }

  lemma AnswersNothing(ctx: Context, s: State, t: State, to: Address, source: VPort, destination: VPort)
    requires t.sent == s.sent
    ensures Answers(ctx, s, t, to, source, destination)
  {}

  lemma AnswersTrans(ctx: Context, s: State, t: State, u: State, to: Address, source: VPort, destination: VPort)
    requires Answers(ctx, s, t, to, source, destination) && Answers(ctx, t, u, to, source, destination)
    requires KeepsSigning(t, u)
    ensures Answers(ctx, s, u, to, source, destination)
  {
    hide Serialize;
    assert u.sent[..|s.sent|] == u.sent[..|t.sent|][..|s.sent|];
    forall k: nat | |s.sent| <= k < |u.sent|
      ensures u.sent[k].client < |u.objects|
      ensures AnswerTo(ctx, u.sent[k], u.objects[u.sent[k].client], to, source, destination)
    {
      if k < |t.sent| {
        assert u.sent[k] == u.sent[..|t.sent|][k];
      }
    }
  }

  lemma SendAnswers(ctx: Context, s: State, client: nat, kind: Kind, to: Address, p: QPacket)
    requires client < |s.objects|
    requires Serialize(ctx, Outgoing(p)).Ok? ==>
               AnswerTo(ctx, Sent(client, kind, to, Outgoing(p), Serialize(ctx, Outgoing(p)).value), s.objects[client],
                        to, p.source, p.destination)
    ensures Answers(ctx, s, SendPacket(ctx, s, client, kind, to, p), to, p.source, p.destination)
    ensures KeepsSigning(s, SendPacket(ctx, s, client, kind, to, p))
  {
    hide Serialize, Outgoing, AnswerTo;
  }

  lemma AckAnswers(ctx: Context, s: State, to: Address, p: QPacket, client: nat, keep: bool)
    requires client < |s.objects|
    ensures Answers(ctx, s, SendAck(ctx, s, to, p, client, keep), to, p.destination, p.source)
    ensures KeepsSigning(s, SendAck(ctx, s, to, p, client, keep))
  {
    hide Serialize;
    SendAnswers(ctx, s, client, Ack, to, AckPacket(p, s.objects[client], keep));
  }

  lemma FragmentAnswers(ctx: Context, s: State, call: Call, response: seq<byte>, n: nat)
    requires call.client < |s.objects| && n < FragmentCount(|response|)
    ensures Answers(ctx, s, SendFragment(ctx, s, call, response, n), call.from, call.destination, call.source)
    ensures KeepsSigning(s, SendFragment(ctx, s, call, response, n))
  {
    hide Serialize, Chunk;
    var c := s.objects[call.client];
    var s' := s.(objects := s.objects[call.client := c.(serverSequenceId := (c.serverSequenceId + 1) % 0x1_0000)]);
    SendAnswers(ctx, s', call.client, Response, call.from, ResponsePacket(call, c, response, n));
  }

  lemma {:induction false} FragmentsAnswer(ctx: Context, s: State, call: Call, response: seq<byte>, n: nat)
    requires call.client < |s.objects| && n <= FragmentCount(|response|)
    ensures Answers(ctx, s, SendFragments(ctx, s, call, response, n), call.from, call.destination, call.source)
    ensures KeepsSigning(s, SendFragments(ctx, s, call, response, n))
    decreases n
  {
    hide SendFragment, Answers;
    if n == 0 {
      AnswersNothing(ctx, s, s, call.from, call.destination, call.source);
    } else {
      var t := SendFragments(ctx, s, call, response, n - 1);
      FragmentsAnswer(ctx, s, call, response, n - 1);
      FragmentAnswers(ctx, t, call, response, n - 1);
      AnswersTrans(ctx, s, t, SendFragment(ctx, t, call, response, n - 1), call.from, call.destination, call.source);
    }
  }

  lemma MessageAnswers(ctx: Context, s: State, call: Call, response: seq<byte>)
    requires call.client < |s.objects|
    ensures Answers(ctx, s, SendMessage(ctx, s, call, response), call.from, call.destination, call.source)
    ensures KeepsSigning(s, SendMessage(ctx, s, call, response))
  {
    hide SendFragments, Answers;
    var t, u := SendFragments(ctx, s, call, response, FragmentCount(|response|)), SendMessage(ctx, s, call, response);
    FragmentsAnswer(ctx, s, call, response, FragmentCount(|response|));
    AnswersNothing(ctx, t, u, call.from, call.destination, call.source);
    AnswersTrans(ctx, s, t, u, call.from, call.destination, call.source);
  }

  lemma DeliverAnswers(ctx: Context, s: State, ports: set<byte>, p: QPacket, from: Address, client: nat,
                       payload: seq<byte>, env: Env)
    requires client < |s.objects|
    ensures Answers(ctx, s, Deliver(ctx, s, ports, p, from, client, payload, env), from, p.destination, p.source)
    ensures KeepsSigning(s, Deliver(ctx, s, ports, p, from, client, payload, env))
  {
    hide SendMessage, Answers;
    var t := Deliver(ctx, s, ports, p, from, client, payload, env);
    var reply := env.handler(payload);
    if VPortToByte(p.destination) in ports && reply.Returns? {
      var s' := s.(deliveries := s.deliveries + [Delivery(client, payload)]);
      MessageAnswers(ctx, s', Call(client, from, p.source, p.destination), reply.response);
      AnswersNothing(ctx, s, s', from, p.destination, p.source);
      AnswersTrans(ctx, s, s', t, from, p.destination, p.source);
    } else {
      AnswersNothing(ctx, s, t, from, p.destination, p.source);
    }
  }

  lemma DataAnswers(ctx: Context, s: State, ports: set<byte>, p: QPacket, from: Address, env: Env)
    requires Closed(s)
    ensures Answers(ctx, s, HandleData(ctx, s, ports, p, from, env), from, p.destination, p.source)
  {
    hide SendAck, Deliver, Answers, Store, Assemble;
    var t := HandleData(ctx, s, ports, p, from, env);
    if p.signature !in s.clients {
      AnswersNothing(ctx, s, t, from, p.destination, p.source);
    } else {
      var client := s.clients[p.signature];
      var c := s.objects[client].(lastSeen := env.now);
      var s0 := Update(s, client, c);
      var s1 := SendAck(ctx, s0, from, p, client, false);
      AckAnswers(ctx, s0, from, p, client, false);
      AckFrame(ctx, s0, from, p, client, false);
      AnswersNothing(ctx, s, s0, from, p.destination, p.source);
      AnswersTrans(ctx, s, s0, s1, from, p.destination, p.source);
      DataAnswersOn(ctx, s1, ports, p, from, client, c, env);
      AnswersTrans(ctx, s, s1, t, from, p.destination, p.source);
    }
  }

  /** What follows the acknowledgement of a DATA packet. */
  lemma DataAnswersOn(ctx: Context, s: State, ports: set<byte>, p: QPacket, from: Address, client: nat, c: Client,
                      env: Env)
    requires client < |s.objects| && s.objects[client] == c
    ensures var t := if p.fragmentId.None? then Deliver(ctx, s, ports, p, from, client, p.payload, env)
                     else if p.fragmentId.value % 256 != 0 then
                       Update(s, client, c.(packetFragments :=
                         Store(c.packetFragments, p.fragmentId.value % 256, p.payload)))
                     else
                       var s2 := Update(s, client, c.(packetFragments := map[]));
                       var message := Assemble(c.packetFragments, p.payload);
                       if message.None? then s2 else Deliver(ctx, s2, ports, p, from, client, message.value, env);
            Answers(ctx, s, t, from, p.destination, p.source) && KeepsSigning(s, t)
  {
    hide Deliver, Answers, Store, Assemble;
    if p.fragmentId.None? {
      DeliverAnswers(ctx, s, ports, p, from, client, p.payload, env);
    } else if p.fragmentId.value % 256 != 0 {
      AnswersNothing(ctx, s, Update(s, client, c.(packetFragments :=
                       Store(c.packetFragments, p.fragmentId.value % 256, p.payload))), from, p.destination, p.source);
    } else {
      var s2 := Update(s, client, c.(packetFragments := map[]));
      AnswersNothing(ctx, s, s2, from, p.destination, p.source);
      var message := Assemble(c.packetFragments, p.payload);
      if message.Some? {
        DeliverAnswers(ctx, s2, ports, p, from, client, message.value, env);
        AnswersTrans(ctx, s, s2, Deliver(ctx, s2, ports, p, from, client, message.value, env),
                     from, p.destination, p.source);
      }
    }
  }

  /** An acknowledgement in a state reached without sending anything. */
  lemma AckAfter(ctx: Context, s: State, t: State, u: State, to: Address, p: QPacket, client: nat, keep: bool)
    requires t.sent == s.sent && client < |t.objects|
    requires u.sent == SendAck(ctx, t, to, p, client, keep).sent
    requires u.objects == SendAck(ctx, t, to, p, client, keep).objects
    ensures Answers(ctx, s, u, to, p.destination, p.source)
  {
    hide SendAck, AnswerTo;
    AckAnswers(ctx, t, to, p, client, keep);
  }

  lemma ConnectAnswers(ctx: Context, s: State, p: QPacket, from: Address, env: Env)
    requires Closed(s)
    ensures Answers(ctx, s, HandleConnect(ctx, s, p, from, env), from, p.destination, p.source)
  {
    hide SendAck, Answers, PresentedTicket, Challenge;
    var t := HandleConnect(ctx, s, p, from, env);
    if p.connSignature.None? || p.signature !in s.newClients {
      AnswersNothing(ctx, s, t, from, p.destination, p.source);
    } else {
      var client := s.newClients[p.signature];
      var c := s.objects[client].(clientSignature := p.connSignature, serverSession := env.session,
                                  clientSession := p.sessionId);
      var s1 := Promoted(s, p.signature, c);
      var (s2, reply) := if p.payload == [] then (s1, [])
                         else AcceptTicket(ctx, s1, client, p.signature, p.payload, env.now);
      AckAfter(ctx, s, s2, t, from, p.(connSignature := Some(0), payload := reply), client, reply != []);
    }
  }

  /**
   * Everything sent while a packet is handled goes back to where it came from, with its ports
   * exchanged, and carries the signature the client gave and the session it was assigned.
   */
  lemma PacketAnswers(ctx: Context, ports: set<byte>, s: State, p: QPacket, from: Address, env: Env)
    requires Closed(s)
    ensures Answers(ctx, s, HandlePacket(ctx, ports, s, p, from, env), from, p.destination, p.source)
  {
    hide HandleConnect, HandleData, SendAck, Answers;
    var t := HandlePacket(ctx, ports, s, p, from, env);
    if !IsAck(p) && p.packetType == SYN {
      AckAfter(ctx, s, WithNew(s, NewClient(from, env.signature, env.now)), t, from,
               p.(connSignature := Some(env.signature)), |s.objects|, false);
    } else if !IsAck(p) && p.packetType == CONNECT {
      ConnectAnswers(ctx, s, p, from, env);
    } else if !IsAck(p) && p.packetType == DATA {
      DataAnswers(ctx, s, ports, p, from, env);
    } else if !IsAck(p) && p.packetType == DISCONNECT && p.signature in s.clients {
      AckAfter(ctx, s, RemoveClient(s, p.signature), t, from, p, s.clients[p.signature], false);
    } else if !IsAck(p) && p.packetType == PING && p.signature in s.clients {
      var client := s.clients[p.signature];
      AckAfter(ctx, s, Update(s, client, s.objects[client].(lastSeen := env.now)), t, from, p, client, false);
    } else {
      AnswersNothing(ctx, s, t, from, p.destination, p.source);
    }
  }

  /** A response that was promised goes back to where its request came from, in the same way. */
  lemma PromiseAnswers(ctx: Context, s: State, k: nat, response: seq<byte>)
    requires Closed(s) && k < |s.pending|
    ensures var call := s.pending[k];
            Answers(ctx, s, Complete(ctx, s, k, Some(response)), call.from, call.destination, call.source)
  {
    hide SendMessage, AnswerTo;
    MessageAnswers(ctx, s.(pending := s.pending[..k] + s.pending[k + 1..]), s.pending[k], response);
  }

  /** A request of the server goes to the client's address under the server's own signature, and is numbered for it. */
  lemma RequestIsAddressed(ctx: Context, s: State, client: nat, p: QPacket)
    requires client < |s.objects|
    ensures var t := SendRequest(ctx, s, client, p);
            var c := s.objects[client];
            && t.objects == s.objects[client := c.(clientSequenceId := (c.clientSequenceId + 1) % 0x1_0000)]
            && (t.sent == s.sent ||
                (|t.sent| == |s.sent| + 1 && t.sent[..|s.sent|] == s.sent &&
                 var x := t.sent[|s.sent|];
                 && x.to == c.address && x.client == client && x.packet.signature == c.serverSignature
                 && x.packet.sessionId == c.clientSession && x.packet.sequence == c.clientSequenceId
                 && x.packet.payload == p.payload && x.packet.flags == 14 + p.flags % 2
                 && x.packet.source == p.source && x.packet.destination == p.destination
                 && x.packet.packetType == p.packetType
                 && x.packet.useCompression == (p.packetType == 2 || p.useCompression)
                 && Serialize(ctx, x.packet) == Ok(x.data)))
  {
    hide Serialize;
  }

  /** How many requests were made to client `i`. */
  function Made(es: seq<Event>, i: nat): nat {
    if es == [] then 0 else
    Made(es[..|es| - 1], i) + if es[|es| - 1].Requested? && es[|es| - 1].client == i then 1 else 0
  }

  /** Nothing that happens to a client changes where it is and what it is called; only requests use up its numbers. */
  lemma {:induction false} RunKeepsNames(ctx: Context, ports: set<byte>, s: State, es: seq<Event>, i: nat)
    requires Closed(s) && i < |s.objects|
    ensures var t := Run(ctx, ports, s, es);
            && i < |t.objects| && t.objects[i].address == s.objects[i].address
            && t.objects[i].serverSignature == s.objects[i].serverSignature
            && t.objects[i].clientSequenceId == (s.objects[i].clientSequenceId + Made(es, i)) % 0x1_0000
    decreases |es|
  {
    hide Step, Closed, CarriesData, IsHeard, FeedPacket;
    if es == [] {
    } else {
      var init, e := es[..|es| - 1], es[|es| - 1];
      var before := Run(ctx, ports, s, init);
      RunKeepsNames(ctx, ports, s, init, i);
      StepFrame(ctx, ports, before, e);
      assert ClientFramed(before, e, i, Step(ctx, ports, before, e).objects[i]);
      NextNumber(s.objects[i].clientSequenceId + Made(init, i));
    }
  }

  lemma NextNumber(n: nat)
    ensures (n % 0x1_0000 + 1) % 0x1_0000 == (n + 1) % 0x1_0000
  {}

  /**
   * Whatever has happened since some earlier point, a request made to a client goes to the address it
   * had then, under the signature it was given, and is numbered by the requests made to it since.
   */
  lemma RequestsAreNumbered(ctx: Context, ports: set<byte>, s: State, es: seq<Event>, client: nat, p: QPacket)
    requires Closed(s) && client < |s.objects|
    ensures var before, c := Run(ctx, ports, s, es), s.objects[client];
            client < |before.objects| &&
            var t := SendRequest(ctx, before, client, p);
            t.sent == before.sent ||
            (|t.sent| == |before.sent| + 1 && t.sent[..|before.sent|] == before.sent &&
             var x := t.sent[|before.sent|];
             && x.to == c.address && x.packet.signature == c.serverSignature && x.packet.payload == p.payload
             && x.packet.flags == 14 + p.flags % 2
             && x.packet.sequence == (c.clientSequenceId + Made(es, client)) % 0x1_0000
             && Serialize(ctx, x.packet) == Ok(x.data))
  {
    hide SendRequest, Serialize, Run;
    RunKeepsNames(ctx, ports, s, es, client);
    RequestIsAddressed(ctx, Run(ctx, ports, s, es), client, p);
  }

  // ---- which packets are acknowledged ----

  /** The server knows whom the packet is from, or is about to. */
  predicate Recognised(s: State, p: QPacket) {
    && !IsAck(p)
    && (|| p.packetType == SYN
        || (p.packetType == CONNECT && p.connSignature.Some? && p.signature in s.newClients)
        || ((p.packetType == DATA || p.packetType == DISCONNECT || p.packetType == PING) && p.signature in s.clients))
  }

  /** What an acknowledgement announces: to a SYN the signature it is given, and none to a CONNECT. */
  function Announced(p: QPacket, signature: u32): Option<u32> {
    if p.packetType == 0 then Some(signature) else if p.packetType == 1 then Some(0) else p.connSignature
  }

  /** The first datagram sent from `s` to `t` acknowledges `p`, and announces a signature or none. */
  ghost predicate AcknowledgesFirst(s: State, t: State, p: QPacket, announced: Option<u32>) {
    && |s.sent| < |t.sent|
    && var x := t.sent[|s.sent|];
    && x.kind == Ack && IsAck(x.packet) && x.packet.packetType == p.packetType && x.packet.sequence == p.sequence
    && x.packet.connSignature == announced
    && (p.packetType == 2 && p.fragmentId.Some? ==> x.packet.fragmentId == p.fragmentId)
    && (p.packetType != 1 ==> x.packet.payload == [])
  }

  lemma AckIsFirst(ctx: Context, s: State, t: State, u: State, to: Address, p: QPacket, client: nat, keep: bool)
    requires ValidContext(ctx) && t.sent == s.sent && client < |t.objects|
    requires HasConnSignature(p.packetType) ==> p.connSignature.Some?
    requires if keep then p.packetType == CONNECT && |p.payload| <= MAX_PAYLOAD_SIZE else true
    requires u.sent == SendAck(ctx, t, to, p, client, keep).sent
    ensures AcknowledgesFirst(s, u, p, p.connSignature)
  {
    hide Serialize, ValidContext;
    SmallSerializes(ctx, Outgoing(AckPacket(p, t.objects[client], keep)));
  }

  /** Exactly the packets of clients the server recognises are acknowledged, and nothing is sent before that. */
  lemma RecognisedAreAcknowledged(ctx: Context, ports: set<byte>, s: State, p: QPacket, from: Address, env: Env)
    requires ValidContext(ctx) && Closed(s)
    ensures var t := HandlePacket(ctx, ports, s, p, from, env);
            && (Recognised(s, p) ==> AcknowledgesFirst(s, t, p, Announced(p, env.signature)))
            && (!Recognised(s, p) ==> t == s)
  {
    hide HandleConnect, HandleData, SendAck, AcknowledgesFirst, ValidContext;
    var t := HandlePacket(ctx, ports, s, p, from, env);
    if IsAck(p) {
    } else if p.packetType == SYN {
      var q := p.(connSignature := Some(env.signature));
      AckIsFirst(ctx, s, WithNew(s, NewClient(from, env.signature, env.now)), t, from, q, |s.objects|, false);
      SameAcknowledged(s, t, q, p, q.connSignature);
    } else if p.packetType == CONNECT {
      ConnectAcknowledged(ctx, s, p, from, env);
    } else if p.packetType == DATA {
      DataAcknowledged(ctx, s, ports, p, from, env);
    } else if p.packetType == DISCONNECT && p.signature in s.clients {
      AckIsFirst(ctx, s, RemoveClient(s, p.signature), t, from, p, s.clients[p.signature], false);
    } else if p.packetType == PING && p.signature in s.clients {
      var client := s.clients[p.signature];
      AckIsFirst(ctx, s, Update(s, client, s.objects[client].(lastSeen := env.now)), t, from, p, client, false);
    }
  }

  lemma SameAcknowledged(s: State, t: State, p: QPacket, q: QPacket, announced: Option<u32>)
    requires p.packetType == q.packetType && p.sequence == q.sequence && p.fragmentId == q.fragmentId
    requires AcknowledgesFirst(s, t, p, announced)
    ensures AcknowledgesFirst(s, t, q, announced)
  {}

  lemma ConnectAcknowledged(ctx: Context, s: State, p: QPacket, from: Address, env: Env)
    requires ValidContext(ctx) && Closed(s) && p.packetType == CONNECT
    ensures var t := HandleConnect(ctx, s, p, from, env);
            if p.connSignature.Some? && p.signature in s.newClients
            then AcknowledgesFirst(s, t, p, Announced(p, env.signature)) else t == s
  {
    hide SendAck, AcceptTicket, AcknowledgesFirst, ValidContext;
    if p.connSignature.Some? && p.signature in s.newClients {
      var client := s.newClients[p.signature];
      var c := s.objects[client].(clientSignature := p.connSignature, serverSession := env.session,
                                  clientSession := p.sessionId);
      var s1 := Promoted(s, p.signature, c);
      AcceptTicketOutput(ctx, s1, client, p.signature, p.payload, env.now);
      var (s2, reply) := if p.payload == [] then (s1, [])
                         else AcceptTicket(ctx, s1, client, p.signature, p.payload, env.now);
      var q := p.(connSignature := Some(0), payload := reply);
      var t := HandleConnect(ctx, s, p, from, env);
      AckIsFirst(ctx, s, s2, t, from, q, client, reply != []);
      SameAcknowledged(s, t, q, p, q.connSignature);
    }
  }

  lemma DataAcknowledged(ctx: Context, s: State, ports: set<byte>, p: QPacket, from: Address, env: Env)
    requires ValidContext(ctx) && Closed(s) && p.packetType == DATA
    ensures var t := HandleData(ctx, s, ports, p, from, env);
            if p.signature in s.clients then AcknowledgesFirst(s, t, p, Announced(p, env.signature)) else t == s
  {
    hide SendAck, Deliver, Answers, Store, Assemble, AcknowledgesFirst, ValidContext;
    if p.signature in s.clients {
      var client := s.clients[p.signature];
      var c := s.objects[client].(lastSeen := env.now);
      var s0 := Update(s, client, c);
      var s1 := SendAck(ctx, s0, from, p, client, false);
      var t := HandleData(ctx, s, ports, p, from, env);
      AckIsFirst(ctx, s, s0, s1, from, p, client, false);
      AckFrame(ctx, s0, from, p, client, false);
      DataAnswersOn(ctx, s1, ports, p, from, client, c, env);
      MoreSent(ctx, s, s1, t, p, p.connSignature, from);
    }
  }

  lemma MoreSent(ctx: Context, s: State, t: State, u: State, p: QPacket, announced: Option<u32>, from: Address)
    requires AcknowledgesFirst(s, t, p, announced) && Answers(ctx, t, u, from, p.destination, p.source)
    ensures AcknowledgesFirst(s, u, p, announced)
  {
    assert u.sent[|s.sent|] == u.sent[..|t.sent|][|s.sent|];
  }
}
