/** The handshake of a client that presents its ticket, from the encoded ticket to the answered challenge. */
module Handshake {
  import opened Basics
  import Rc4
  import opened Packets
  import opened Datagrams
  import opened Kerberos
  import opened Server
  import opened Registry
  import opened Runs
  import opened ResponseStream
  import C = Codecs
  import opened WireFormat

  // ---- the client's side ----

  /** What a client proves itself with: its pid, a connection id and a challenge. */
  function Proof(userPid: u32, connectionId: u32, challenge: u32): seq<byte> {
    Le(userPid, 4) + (Le(connectionId, 4) + (Le(challenge, 4) + []))
  }

  function Buffer(data: seq<byte>): seq<byte> {
    Le(|data|, 4) + data
  }

  /** The CONNECT payload: the sealed ticket, and the proof encrypted with the session key. */
  function ConnectPayload(sealed: seq<byte>, sessionKey: seq<byte>, proof: seq<byte>): Result<seq<byte>> {
    var encrypted :- Rc4.Crypt(sessionKey, proof);
    Ok(Buffer(sealed) + (Buffer(encrypted) + []))
  }

  lemma ReadBack(data: seq<byte>, rest: seq<byte>)
    requires |data| < 0x1_0000_0000
    ensures C.ReadBuffer(Buffer(data) + rest, 4) == Ok((data, rest))
  {
    Widths();
    Assoc(Le(|data|, 4), data, rest);
    ReadLe(|data|, 4, data + rest);
    TakeAppend(data, rest);
  }

  lemma ProofIsRead(userPid: u32, connectionId: u32, challenge: u32)
    ensures ParseConnectData(Proof(userPid, connectionId, challenge)) ==
            Ok(ConnectData(userPid, connectionId, challenge))
  {
    Widths();
    ReadLe(userPid, 4, Le(connectionId, 4) + (Le(challenge, 4) + []));
    ReadLe(connectionId, 4, Le(challenge, 4) + []);
    ReadLe(challenge, 4, []);
  }

  /** The server gets the ticket and the challenge out of the payload. */
  lemma PayloadIsRead(ctx: Context, internal: TicketInternal, nonce: seq<byte>,
                      userPid: u32, connectionId: u32, challenge: u32)
    requires BoxSound(ctx.box) && ValidTicket(internal) && |nonce| == NONCE_SIZE
    ensures var sealed := SealTicket(ctx.box, internal, nonce, ctx.ticketKey);
            var payload := ConnectPayload(sealed, internal.sessionKey, Proof(userPid, connectionId, challenge));
            && payload.Ok? && payload.value != []
            && PresentedTicket(ctx, payload.value) == Ok(internal)
            && SplitTicket(payload.value).Ok?
            && Challenge(internal, SplitTicket(payload.value).value.1) == Ok(challenge)
  {
    hide SealTicket, OpenTicket, Rc4.Crypt, C.ReadBuffer, ParseConnectData, Le, BoxSound, Buffer;
    var sealed := SealTicket(ctx.box, internal, nonce, ctx.ticketKey);
    var proof := Proof(userPid, connectionId, challenge);
    OpenSealedTicket(ctx.box, internal, nonce, ctx.ticketKey);
    Rc4.CryptCancel(internal.sessionKey, proof);
    var encrypted := Rc4.Crypt(internal.sessionKey, proof).value;
    ReadBack(sealed, Buffer(encrypted) + []);
    ReadBack(encrypted, []);
    ProofIsRead(userPid, connectionId, challenge);
    NotEmpty(sealed, Buffer(encrypted) + []);
  }

  lemma NotEmpty(data: seq<byte>, rest: seq<byte>)
    ensures Buffer(data) + rest != []
  {
    assert |Le(|data|, 4)| == 4;
  }

  // ---- the server's side ----

  /** `packets` is one acknowledgement of the CONNECT packet `p` with this payload. */
  predicate Acknowledges(packets: seq<QPacket>, p: QPacket, payload: seq<byte>) {
    && |packets| == 1 && IsAck(packets[0]) && packets[0].packetType == CONNECT
    && p.connSignature.Some? && packets[0].signature == p.connSignature.value
    && packets[0].sequence == p.sequence && packets[0].payload == payload
  }

  /** Each side keeps what the other wants to be called: the signatures and session numbers of later packets. */
  predicate TakesNames(c: Client, p: QPacket, env: Env) {
    && c.clientSignature == p.connSignature && c.clientSession == p.sessionId && c.serverSession == env.session
    && c.serverSignature == p.signature
  }

  /** An acknowledgement on a secure stream arrives with its payload. */
  lemma AckArrives(ctx: Context, s: State, to: Address, p: QPacket, client: nat, reply: seq<byte>)
    requires ValidContext(ctx) && client < |s.objects| && |reply| <= MAX_PAYLOAD_SIZE
    requires p.packetType == CONNECT && p.connSignature.Some? && p.destination.streamType == RVSEC
    requires s.objects[client].clientSignature == p.connSignature
    ensures var t := SendAck(ctx, s, to, p.(connSignature := Some(0), payload := reply), client, reply != []);
            && |t.sent| == |s.sent| + 1 && t.sent[|s.sent|].client == client && t.sent[|s.sent|].to == to
            && Acknowledges(Split(ctx, t.sent[|s.sent|].data), p, reply)
  {
    hide Serialize, Arrives, Arrived, Split;
    var ack := Outgoing(AckPacket(p.(connSignature := Some(0), payload := reply), s.objects[client], reply != []));
    SmallSerializes(ctx, ack);
    SmallArrives(ctx, ack);
    SmallRatio(ctx.zlib, reply);
    SplitOne(ctx, ack);
    ArrivedSignature(ctx, ack);
  }

  lemma ArrivedSignature(ctx: Context, p: QPacket)
    requires Arrives(ctx, p)
    ensures Arrived(ctx, p).signature == p.signature
  {}

  /**
   * A waiting client that gets its ticket out of the encoded one and sends its sealed part with a
   * challenge is connected. If the ticket has not expired, and only then, it is given the next
   * connection id and the ticket's principal, and the acknowledgement that reaches it carries the
   * challenge plus one.
   */
  lemma HandshakeCompletes(ctx: Context, h: Hashes, ports: set<byte>, s: State, i: nat, p: QPacket, from: Address,
                           env: Env,
                           internal: TicketInternal, pid: u32, nonce: seq<byte>, peerPid: u32, password: Option<string>,
                           ticket: seq<byte>, decoded: (seq<byte>, u32, seq<byte>), connectionId: u32, challenge: u32)
    requires ValidContext(ctx) && BoxSound(ctx.box) && HashesSound(h) && Inv(s) && s.accepted < WRAP
    requires ValidTicket(internal) && |nonce| == NONCE_SIZE
    requires IsNew(s, i) && p.signature == s.objects[i].serverSignature
    requires p.packetType == CONNECT && !IsAck(p) && p.connSignature.Some? && p.destination.streamType == RVSEC
    requires EncodeTicket(h, internal.sessionKey, pid, SealTicket(ctx.box, internal, nonce, ctx.ticketKey), peerPid,
                          password) == Ok(ticket)
    requires DecodeTicket(h, ticket, peerPid, password) == Ok(decoded)
    requires ConnectPayload(decoded.2, decoded.0, Proof(peerPid, connectionId, challenge)) == Ok(p.payload)
    ensures var t := HandlePacket(ctx, ports, s, p, from, env);
            var unexpired := env.now < 1000 * (internal.validUntil + 1);
            var id := (0x3aaa_aaaa + s.accepted) % 0x1_0000_0000;
            && Inv(t) && IsConnected(t, i) && TakesNames(t.objects[i], p, env)
            && t.objects[i].connectionId == (if unexpired then Some(id) else None)
            && t.objects[i].userId == (if unexpired then Some(internal.principleId) else s.objects[i].userId)
            && (unexpired ==> ClientByConnectionId(t, id) == Some(i))
            && |t.sent| == |s.sent| + 1 && t.sent[|s.sent|].client == i && t.sent[|s.sent|].to == from
            && Acknowledges(Split(ctx, t.sent[|s.sent|].data), p,
                            if unexpired then ChallengeReply(challenge) else [])
  {
    hide EncodeTicket, DecodeTicket, SealTicket, ConnectPayload, HandleConnect, BoxSound, HashesSound, Split;
    hide Acknowledges;
    hide ClientByConnectionId, ChallengeReply, Proof, Inv, Serialize, TakesNames;
    hide PresentedTicket, SplitTicket, Challenge, OpenTicket, ValidContext;
    OpenSealedTicket(ctx.box, internal, nonce, ctx.ticketKey);
    TicketRoundTrip(h, internal.sessionKey, pid, SealTicket(ctx.box, internal, nonce, ctx.ticketKey), peerPid,
                    password);
    PayloadIsRead(ctx, internal, nonce, peerPid, connectionId, challenge);
    InvCloses(s);
    NextId(s);
    ConnectCompletes(ctx, s, i, p, from, env, internal, challenge);
    LookupMatches(HandleConnect(ctx, s, p, from, env), s.nextConnectionId, i);
  }

  lemma NextId(s: State)
    requires Inv(s)
    ensures s.nextConnectionId == (0x3aaa_aaaa + s.accepted) % 0x1_0000_0000
  {}

  lemma WaitingHasNoId(s: State, i: nat)
    requires Inv(s) && IsNew(s, i)
    ensures s.objects[i].connectionId.None?
  {}

  /** The server's part of it, for any payload it can read. */
  lemma ConnectCompletes(ctx: Context, s: State, i: nat, p: QPacket, from: Address, env: Env,
                         internal: TicketInternal, challenge: u32)
    requires ValidContext(ctx) && Inv(s) && s.accepted < WRAP
    requires IsNew(s, i) && p.signature == s.objects[i].serverSignature
    requires p.packetType == CONNECT && p.connSignature.Some? && p.destination.streamType == RVSEC && p.payload != []
    requires PresentedTicket(ctx, p.payload) == Ok(internal) && SplitTicket(p.payload).Ok?
    requires Challenge(internal, SplitTicket(p.payload).value.1) == Ok(challenge)
    ensures Closed(s)
    ensures var t := HandleConnect(ctx, s, p, from, env);
            var unexpired := env.now < 1000 * (internal.validUntil + 1);
            && Inv(t) && IsConnected(t, i) && TakesNames(t.objects[i], p, env)
            && t.objects[i].connectionId == (if unexpired then Some(s.nextConnectionId) else None)
            && t.objects[i].userId == (if unexpired then Some(internal.principleId) else s.objects[i].userId)
            && |t.sent| == |s.sent| + 1 && t.sent[|s.sent|].client == i && t.sent[|s.sent|].to == from
            && Acknowledges(Split(ctx, t.sent[|s.sent|].data), p,
                            if unexpired then ChallengeReply(challenge) else [])
  {
    hide SendAck, PresentedTicket, SplitTicket, Challenge, Inv, Acknowledges, Split, ChallengeReply, Quiet, SecureCalls;
    InvCloses(s);
    WaitingHasNoId(s, i);
    ReplySize(challenge);
    var c := s.objects[i].(clientSignature := p.connSignature, serverSession := env.session,
                           clientSession := p.sessionId);
    var s1 := Promoted(s, p.signature, c);
    var unexpired := env.now < 1000 * (internal.validUntil + 1);
    InSeconds(internal.validUntil, env.now);
    var s2 := if unexpired then Accepted(s1, i, internal.principleId) else s1;
    var reply := if unexpired then ChallengeReply(challenge) else [];
    assert HandleConnect(ctx, s, p, from, env) ==
           SendAck(ctx, s2, from, p.(connSignature := Some(0), payload := reply), i, reply != []);
    AckArrives(ctx, s2, from, p, i, reply);
    SendAckQuiet(ctx, s2, from, p.(connSignature := Some(0), payload := reply), i, reply != []);
    QuietAccepted(s2, HandleConnect(ctx, s, p, from, env));
    ConnectKeepsInv(ctx, s, p, from, env);
    QuietConnected(s2, HandleConnect(ctx, s, p, from, env), i);
    AckKeepsCalls(ctx, s2, from, p.(connSignature := Some(0), payload := reply), i, reply != []);
  }

  lemma QuietConnected(s: State, t: State, i: nat)
    requires Quiet(s, t) && IsConnected(s, i)
    ensures IsConnected(t, i) && t.objects[i].connectionId == s.objects[i].connectionId
    ensures t.objects[i].userId == s.objects[i].userId
  {}

  lemma ReplySize(challenge: u32)
    ensures |ChallengeReply(challenge)| == 8
  {}

  /** The answer is the successor of the challenge, wrapping at 2^32, in a buffer. */
  lemma ReplyIsSuccessor(challenge: u32)
    ensures C.ReadBuffer(ChallengeReply(challenge), 4).Ok?
    ensures var answer := C.ReadBuffer(ChallengeReply(challenge), 4).value.0;
            ReadUnsigned(answer, 4) == Ok(((challenge + 1) % 0x1_0000_0000, []))
  {
    Widths();
    var answer := Le((challenge + 1) % 0x1_0000_0000, 4);
    assert ChallengeReply(challenge) == Buffer(answer) + [];
    ReadBack(answer, []);
    ReadLe((challenge + 1) % 0x1_0000_0000, 4, []);
    assert answer + [] == answer;
  }

  // ---- the layout of what is exchanged ----

  lemma BufferLayout(bs: seq<byte>)
    ensures C.ReadBuffer(bs, 4).Ok? <==> |bs| >= 4 && |bs| >= 4 + Int32(bs, 0)
    ensures C.ReadBuffer(bs, 4).Ok? ==>
              C.ReadBuffer(bs, 4).value == (bs[4..4 + Int32(bs, 0)], bs[4 + Int32(bs, 0)..])
  {
    hide Int32;
    assert bs[0..] == bs;
    if |bs| >= 4 {
      NumberRead(bs, 0);
      if |bs| >= 4 + Int32(bs, 0) {
        DropTake(bs, 4, Int32(bs, 0));
      }
    }
  }

  /** A CONNECT payload is read exactly when it starts with two buffers: the ticket, then the encrypted request. */
  lemma ConnectLayout(bs: seq<byte>)
    ensures var n := if |bs| >= 4 then Int32(bs, 0) else 0;
            var m := if |bs| >= 8 + n then Int32(bs, 4 + n) else 0;
            && (SplitTicket(bs).Ok? <==> |bs| >= 8 + n + m)
            && (SplitTicket(bs).Ok? ==> SplitTicket(bs).value == (bs[4..4 + n], bs[8 + n..8 + n + m]))
  {
    hide Int32, C.ReadBuffer;
    BufferLayout(bs);
    if |bs| >= 4 && |bs| >= 4 + Int32(bs, 0) {
      var n := Int32(bs, 0);
      var rest := bs[4 + n..];
      BufferLayout(rest);
      if |rest| >= 4 {
        SameInt32(bs, 4 + n, |bs|);
        assert bs[4 + n..|bs|] == rest;
        if |rest| >= 4 + Int32(rest, 0) {
          assert rest[4..4 + Int32(rest, 0)] == bs[8 + n..8 + n + Int32(rest, 0)];
        }
      }
    }
  }

  /** The challenge is the third number of the decrypted request, whatever follows it. */
  lemma ChallengeLayout(internal: TicketInternal, requestData: seq<byte>)
    requires Rc4.ValidKey(internal.sessionKey)
    ensures var plain := Rc4.Crypt(internal.sessionKey, requestData);
            && plain.Ok? && |plain.value| == |requestData|
            && (Challenge(internal, requestData).Ok? <==> |requestData| >= 12)
            && (|requestData| >= 12 ==> Challenge(internal, requestData) == Ok(Int32(plain.value, 8)))
  {
    hide Int32, ReadUnsigned;
    CryptSize(internal.sessionKey, requestData);
    var plain := Rc4.Crypt(internal.sessionKey, requestData).value;
    assert plain[0..] == plain;
    if |plain| >= 12 {
      NumberRead(plain, 0);
      NumberRead(plain, 4);
      NumberRead(plain, 8);
    } else {
      ThreeNumbersMissing(plain);
    }
  }

  lemma CryptSize(key: seq<byte>, data: seq<byte>)
    requires Rc4.ValidKey(key)
    ensures Rc4.Crypt(key, data).Ok? && |Rc4.Crypt(key, data).value| == |data|
  {}

  lemma ThreeNumbersMissing(plain: seq<byte>)
    requires |plain| < 12
    ensures ParseConnectData(plain).Err?
  {}

  /** The answer is eight bytes: the length 4, and the challenge plus one modulo 2^32. */
  lemma ReplyLayout(challenge: u32)
    ensures var bs := ChallengeReply(challenge);
            |bs| == 8 && Int32(bs, 0) == 4 && Int32(bs, 4) == (challenge + 1) % 0x1_0000_0000
  {
    hide Int32, Le;
    var next := (challenge + 1) % 0x1_0000_0000;
    var bs := ChallengeReply(challenge);
    assert bs[0..4] == Le(4, 4) && bs[4..8] == Le(next, 4);
    Int32IsLe(bs, 0, 4);
    Int32IsLe(bs, 4, next);
  }
}
