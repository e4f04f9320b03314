/** What the bytes on the wire are: the documented layouts, position by position. */
module WireFormat {
  import opened Basics
  import Rc4
  import opened Packets
  import opened Kerberos
  import R = Rmc
  import C = Codecs
  import T = Text
  import U = StationUrls
  import Streams

  /** The little-endian numbers at a position. */
  function Int16(bs: seq<byte>, at: nat): nat
    requires at + 2 <= |bs|
  {
    var b0: int, b1: int := bs[at], bs[at + 1];
    b0 + 0x100 * b1
  }

  function Int32(bs: seq<byte>, at: nat): nat
    requires at + 4 <= |bs|
  {
    Int16(bs, at) + 0x1_0000 * Int16(bs, at + 2)
  }

  lemma Int16IsLe(bs: seq<byte>, at: nat, n: u16)
    requires at + 2 <= |bs| && bs[at..at + 2] == Le(n, 2)
    ensures Int16(bs, at) == n
  {
    hide Le;
    Widths();
    FromLeLe(n, 2);
    FromLe2(bs[at..at + 2]);
  }

  lemma FromLe2(b: seq<byte>)
    requires |b| == 2
    ensures var b0: int, b1: int := b[0], b[1]; FromLe(b) == b0 + 0x100 * b1
  {
    assert FromLe(b[1..]) == b[1] as int + 256 * FromLe(b[1..][1..]);
  }

  lemma Int32IsLe(bs: seq<byte>, at: nat, n: u32)
    requires at + 4 <= |bs| && bs[at..at + 4] == Le(n, 4)
    ensures Int32(bs, at) == n
  {
    hide Le, FromLe;
    Widths();
    FromLeLe(n, 4);
    FromLe4(bs[at..at + 4]);
  }

  lemma FromLe4(b: seq<byte>)
    requires |b| == 4
    ensures FromLe(b) == Int32(b, 0)
  {
    FromLe2(b[2..]);
    assert b[1..][1..] == b[2..];
    assert FromLe(b[1..]) == b[1] as int + 256 * FromLe(b[2..]);
  }

  // ---- packets ----

  /** The ten bytes every packet starts with. */
  predicate HeaderSays(p: QPacket, bs: seq<byte>)
    requires |bs| >= 10
  {
    && bs[0] == p.source.port % 16 + 16 * p.source.streamType
    && bs[1] == p.destination.port % 16 + 16 * p.destination.streamType
    && bs[2] == p.packetType + 8 * p.flags && bs[3] == p.sessionId
    && Int32(bs, 4) == p.signature && Int16(bs, 8) == p.sequence
  }

  /** Where the payload starts: behind a signature, a fragment number and a size, as far as they are there. */
  function PayloadStart(p: QPacket): nat {
    10 + (if p.packetType <= 1 then 4 else if p.packetType == 2 then 1 else 0) + (if p.flags >= 8 then 2 else 0)
  }

  predicate FieldsSay(p: QPacket, bs: seq<byte>)
    requires |bs| > PayloadStart(p)
  {
    && (p.packetType <= 1 ==> p.connSignature == Some(Int32(bs, 10)))
    && (p.packetType == 2 ==> p.fragmentId.Some? && bs[10] == p.fragmentId.value % 256)
    && (p.flags >= 8 ==> Int16(bs, PayloadStart(p) - 2) == |bs| - PayloadStart(p) - 1)
  }

  /**
   * The payload as it is sent: encrypted on RVSec streams (type 3) except in SYN packets; behind a zero,
   * or deflated behind the ratio by which that made it shorter, plus one.
   */
  predicate BodySays(ctx: Context, p: QPacket, body: seq<byte>) {
    var plain := if p.packetType != 0 && p.source.streamType == 3 then Rc4.Crypt(ctx.cryptoKey, body) else Ok(body);
    plain.Ok? &&
    if p.payload == [] then body == []
    else if !p.useCompression then plain.value == [0] + p.payload
    else
      var deflated := ctx.zlib.deflate(p.payload);
      && plain.value != [] && plain.value[1..] == deflated
      && (deflated != [] ==> plain.value[0] == (|p.payload| / |deflated| + 1) % 256)
  }

  lemma HeadLayout(p: QPacket)
    ensures HeaderSays(p, Head(p))
  {
    var head := Head(p);
    assert head[4..8] == Le(p.signature, 4) && head[8..10] == Le(p.sequence, 2);
    Int32IsLe(head, 4, p.signature);
    Int16IsLe(head, 8, p.sequence);
  }

  lemma HeaderPrefix(p: QPacket, head: seq<byte>, bs: seq<byte>)
    requires |head| == 10 && |bs| >= 10 && bs[..10] == head && HeaderSays(p, head)
    ensures HeaderSays(p, bs)
  {
    assert forall i :: 0 <= i < 10 ==> bs[i] == bs[..10][i];
  }

  lemma FrameSays(ctx: Context, p: QPacket)
    ensures var frame := Frame(ctx.zlib, p);
            && (p.payload == [] <==> frame == [])
            && (p.payload != [] && p.useCompression ==>
                  frame[1..] == ctx.zlib.deflate(p.payload) && frame[0] == Ratio(ctx.zlib, p.payload))
  {
    if p.payload != [] && p.useCompression {
      assert Frame(ctx.zlib, p)[1..] == ctx.zlib.deflate(p.payload);
    }
  }

  lemma SealedBody(ctx: Context, p: QPacket)
    requires SealPayload(ctx, p).Ok?
    ensures BodySays(ctx, p, SealPayload(ctx, p).value)
  {
    hide Rc4.Crypt, Ratio;
    FrameSays(ctx, p);
    if Secure(p) {
      Rc4.CryptCancel(ctx.cryptoKey, Frame(ctx.zlib, p));
      SameSize(ctx.cryptoKey, Frame(ctx.zlib, p));
    }
    RatioIs(ctx.zlib, p.payload);
  }

  lemma RatioIs(z: Zlib, payload: seq<byte>)
    ensures z.deflate(payload) != [] ==> Ratio(z, payload) == (|payload| / |z.deflate(payload)| + 1) % 256
  {}

  lemma FieldsLayout(p: QPacket, bs: seq<byte>, specific: seq<byte>, size: seq<byte>, sealed: seq<byte>, end: byte)
    requires Specific(p) == Ok(specific) && SizeField(p, |sealed|) == Ok(size)
    requires |bs| >= 10 + |specific| && bs[10..10 + |specific|] == specific
    requires bs[10 + |specific|..] == size + (sealed + [end])
    ensures |bs| > PayloadStart(p) && FieldsSay(p, bs)
    ensures bs[PayloadStart(p)..|bs| - 1] == sealed
  {
    hide Int32, Int16, Le;
    var at := 10 + |specific|;
    if p.packetType <= 1 {
      Int32IsLe(bs, 10, p.connSignature.value);
    } else if p.packetType == 2 {
      assert bs[10] == bs[10..11][0];
    }
    TailLayout(bs, at, size, sealed, end);
    if p.flags >= 8 {
      Int16IsLe(bs, at, |sealed|);
    }
  }

  lemma TailLayout(bs: seq<byte>, at: nat, size: seq<byte>, sealed: seq<byte>, end: byte)
    requires at <= |bs| && bs[at..] == size + (sealed + [end])
    ensures |bs| == at + |size| + |sealed| + 1
    ensures bs[at..at + |size|] == size && bs[at + |size|..|bs| - 1] == sealed
  {
    DropTake(bs, at, |size|);
    DropTake(bs, at + |size|, |sealed|);
  }

  /** A serialised packet has the documented layout. */
  lemma PacketLayout(ctx: Context, p: QPacket)
    requires Serialize(ctx, p).Ok?
    ensures var bs := Serialize(ctx, p).value;
            && |bs| > PayloadStart(p) && HeaderSays(p, bs) && FieldsSay(p, bs)
            && BodySays(ctx, p, bs[PayloadStart(p)..|bs| - 1])
  {
    hide Head, Specific, SizeField, SealPayload, HeaderSays, FieldsSay, BodySays, PayloadStart, Seal;
    var bs := Serialize(ctx, p).value;
    SerializedShape(ctx, p, []);
    assert bs + [] == bs;
    HeadLayout(p);
    HeaderPrefix(p, Head(p), bs);
    var sealed := SealPayload(ctx, p).value;
    var end := Seal(ctx, p, DataBytes(ctx, p).value);
    assert [end] + [] == [end];
    FieldsLayout(p, bs, Specific(p).value, SizeField(p, |sealed|).value, sealed, end);
    SealedBody(ctx, p);
  }

  /** Where the payload of a packet in `data` starts, and how long it is. */
  function StartOf(data: seq<byte>): nat
    requires |data| >= 10
  {
    10 + (if data[2] % 8 <= 1 then 4 else if data[2] % 8 == 2 then 1 else 0) + (if data[2] >= 64 then 2 else 0)
  }

  function SizeOf(data: seq<byte>): nat
    requires |data| >= 10 && |data| > StartOf(data)
  {
    if data[2] >= 64 then Int16(data, StartOf(data) - 2) else |data| - StartOf(data) - 1
  }

  /** What a payload is opened to: nothing is decrypted in SYN packets and outside RVSec streams (type 3). */
  function Opened(ctx: Context, data: seq<byte>, body: seq<byte>): Option<(seq<byte>, bool)>
    requires |data| >= 10
  {
    if data[2] % 8 == 0 || data[0] / 16 != 3 then Some((body, false)) else
    var plain := Rc4.Crypt(ctx.cryptoKey, body);
    if plain.Err? then None
    else if plain.value == [] then Some(([], false))
    else if plain.value[0] == 0 then Some((plain.value[1..], false))
    else
      var inflated := ctx.zlib.inflate(plain.value[1..]);
      if inflated.None? then None else Some((inflated.value, true))
  }

  /** The bytes that are a packet, with anything behind it when it has a size. */
  predicate IsPacket(ctx: Context, data: seq<byte>) {
    && |data| >= 10 && 1 <= data[0] / 16 <= 8 && 1 <= data[1] / 16 <= 8 && data[2] < 128
    && |data| > StartOf(data) && |data| > StartOf(data) + SizeOf(data)
    && Opened(ctx, data, data[StartOf(data)..StartOf(data) + SizeOf(data)]).Some?
  }

  lemma OpensAsSaid(ctx: Context, q: QPacket, data: seq<byte>, body: seq<byte>)
    requires |data| >= 10 && q.packetType == data[2] % 8 && q.source.streamType == data[0] / 16
    ensures OpenPayload(ctx, Secure(q), body).Ok? == Opened(ctx, data, body).Some?
    ensures OpenPayload(ctx, Secure(q), body).Ok? ==>
              OpenPayload(ctx, Secure(q), body).value == Opened(ctx, data, body).value
  {
    hide Rc4.Crypt;
  }

  lemma DropTake(data: seq<byte>, at: nat, k: nat)
    requires at + k <= |data|
    ensures data[at..][..k] == data[at..at + k] && data[at..][k..] == data[at + k..]
  {}

  lemma ParsedBody(ctx: Context, p: QPacket, data: seq<byte>)
    requires |data| >= 10 && data[2] < 128 && p.flags == data[2] / 8 && p.packetType == data[2] % 8
    requires p.source.streamType == data[0] / 16
    requires |data| >= StartOf(data) - (if data[2] >= 64 then 2 else 0)
    ensures var at := StartOf(data) - if data[2] >= 64 then 2 else 0;
            var r := ParsePayload(ctx, p, data[at..]);
            var fits := |data| > StartOf(data) && |data| > StartOf(data) + SizeOf(data);
            && (r.Ok? <==> fits && Opened(ctx, data, data[StartOf(data)..StartOf(data) + SizeOf(data)]).Some?)
            && (r.Ok? ==>
                  var seen := Opened(ctx, data, data[StartOf(data)..StartOf(data) + SizeOf(data)]).value;
                  && at + r.value.1 == StartOf(data) + SizeOf(data) + 1
                  && r.value.0 == p.(payload := seen.0, useCompression := seen.1,
                                     checksum := data[StartOf(data) + SizeOf(data)]))
  {
    hide OpenPayload, Opened, Int16;
    var start := StartOf(data);
    if data[2] >= 64 {
      var at := start - 2;
      if |data| >= start {
        DropTake(data, at, 2);
        SizeRead(data, at);
        var size := Int16(data, at);
        if |data| > start + size {
          DropTake(data, start, size);
          OpensAsSaid(ctx, p, data, data[start..start + size]);
        }
      }
    } else if |data| > start {
      var size := |data| - start - 1;
      DropTake(data, start, size);
      OpensAsSaid(ctx, p, data, data[start..start + size]);
    }
  }

  lemma SizeRead(data: seq<byte>, at: nat)
    requires at + 2 <= |data|
    ensures FromLe(data[at..at + 2]) == Int16(data, at)
  {
    FromLe2(data[at..at + 2]);
  }

  /** Exactly such bytes are parsed, to a packet with the fields and the payload they say. */
  lemma ParseLayout(ctx: Context, data: seq<byte>)
    ensures Parse(ctx, data).Ok? <==> IsPacket(ctx, data)
    ensures Parse(ctx, data).Ok? ==>
              var (q, n) := Parse(ctx, data).value;
              && n == StartOf(data) + SizeOf(data) + 1 && HeaderSays(q, data) && q.checksum == data[n - 1]
              && q.source.port < 16 && q.destination.port < 16
              && q.connSignature == (if data[2] % 8 <= 1 then Some(Int32(data, 10)) else None)
              && q.fragmentId == (if data[2] % 8 == 2 then Some(data[10]) else None)
              && Some((q.payload, q.useCompression)) == Opened(ctx, data, data[StartOf(data)..n - 1])
  {
    hide Opened, ParsePayload, Int16, Int32, HeaderSays, SizeOf;
    if |data| >= 10 && 1 <= data[0] / 16 <= 8 && 1 <= data[1] / 16 <= 8 && data[2] < 128 {
      HeadRead(data);
      var head := ParseHead(data[..10]).value;
      var k := SpecificSize(head.packetType);
      if |data| >= 10 + k {
        var p := WithSpecific(head, data[10..10 + k]);
        SpecificRead(head, data);
        ParsedBody(ctx, p, data);
        if Parse(ctx, data).Ok? {
          SameHeader(head, Parse(ctx, data).value.0, data);
        }
      }
    }
  }

  lemma SameHeader(p: QPacket, q: QPacket, bs: seq<byte>)
    requires |bs| >= 10 && HeaderSays(p, bs)
    requires q == p.(connSignature := q.connSignature, fragmentId := q.fragmentId, payload := q.payload,
                     checksum := q.checksum, useCompression := q.useCompression)
    ensures HeaderSays(q, bs)
  {}

  lemma HeadRead(data: seq<byte>)
    requires |data| >= 10 && 1 <= data[0] / 16 <= 8 && 1 <= data[1] / 16 <= 8 && data[2] < 128
    ensures ParseHead(data[..10]).Ok? && HeaderSays(ParseHead(data[..10]).value, data)
    ensures var q := ParseHead(data[..10]).value;
            && q.source == VPort(data[0] % 16, data[0] / 16) && q.destination == VPort(data[1] % 16, data[1] / 16)
            && q.packetType == data[2] % 8 && q.flags == data[2] / 8
            && q.connSignature == None && q.fragmentId == None
  {
    assert data[..10][4..8] == data[4..8] && data[..10][8..10] == data[8..10];
    FromLe4(data[4..8]);
    FromLe2(data[8..10]);
  }

  lemma SpecificRead(q: QPacket, data: seq<byte>)
    requires |data| >= 10 + SpecificSize(q.packetType)
    ensures var p := WithSpecific(q, data[10..10 + SpecificSize(q.packetType)]);
            && p == q.(connSignature := p.connSignature, fragmentId := p.fragmentId)
            && p.connSignature == (if q.packetType <= 1 then Some(Int32(data, 10)) else q.connSignature)
            && p.fragmentId == (if q.packetType == 2 then Some(data[10]) else q.fragmentId)
  {
    if q.packetType <= 1 {
      FromLe4(data[10..14]);
    }
  }

  // ---- tickets ----

  /** A ticket: principal, end of validity in two halves, session key. */
  predicate TicketSays(t: TicketInternal, bs: seq<byte>) {
    && |bs| >= 28 && t.principleId == Int32(bs, 0)
    && t.validUntil == Int32(bs, 4) + 0x1_0000_0000 * Int32(bs, 8) && t.sessionKey == bs[12..28]
  }

  lemma FromLe8(b: seq<byte>)
    requires |b| == 8
    ensures FromLe(b) == Int32(b, 0) + 0x1_0000_0000 * Int32(b, 4)
  {
    var b1, b2, b3 := b[1..], b[2..], b[3..];
    FromLe4(b[4..]);
    assert b1[1..] == b2 && b2[1..] == b3 && b3[1..] == b[4..];
    assert FromLe(b3) == b[3] as int + 256 * FromLe(b[4..]);
    assert FromLe(b2) == b[2] as int + 256 * FromLe(b3);
    assert FromLe(b1) == b[1] as int + 256 * FromLe(b2);
  }

  /** Exactly 28 bytes or more are a ticket, with what is at its places. */
  lemma TicketLayout(bs: seq<byte>)
    ensures ParseTicket(bs).Ok? <==> |bs| >= 28
    ensures ParseTicket(bs).Ok? ==> TicketSays(ParseTicket(bs).value, bs)
  {
    hide Int32, ReadUnsigned;
    assert bs[0..] == bs;
    if |bs| >= 4 {
      NumberRead(bs, 0);
      if |bs| >= 12 {
        LongRead(bs, 4);
        if |bs| >= 28 {
          DropTake(bs, 12, 16);
        }
      } else {
        TooShort(bs[4..], 8);
      }
    } else {
      TooShort(bs, 4);
    }
  }

  lemma TooShort(bs: seq<byte>, width: nat)
    requires |bs| < width
    ensures ReadUnsigned(bs, width).Err?
  {}

  lemma LongRead(bs: seq<byte>, at: nat)
    requires at + 8 <= |bs|
    ensures ReadUnsigned(bs[at..], 8) == Ok((Int32(bs, at) + 0x1_0000_0000 * Int32(bs, at + 4), bs[at + 8..]))
  {
    hide Int32;
    DropTake(bs, at, 8);
    FromLe8(bs[at..at + 8]);
    SameInt32(bs, at, at + 8);
  }

  /** A number read in a part of some bytes is the number at its place in the whole. */
  lemma SameInt32(bs: seq<byte>, from: nat, to: nat)
    requires from <= to <= |bs|
    ensures forall at: nat :: at + 4 <= to - from ==> Int32(bs[from..to], at) == Int32(bs, from + at)
  {}

  /**
   * A sealed ticket is its nonce of 24 bytes and a box; it is opened exactly when the box opens under
   * that nonce to a ticket.
   */
  lemma SealedLayout(box: SecretBox, data: seq<byte>, key: seq<byte>)
    ensures OpenTicket(box, data, key).Ok? <==>
            |data| >= 24 && box.open(data[24..], data[..24], key).Some?
            && |box.open(data[24..], data[..24], key).value| >= 28
    ensures OpenTicket(box, data, key).Ok? ==>
              TicketSays(OpenTicket(box, data, key).value, box.open(data[24..], data[..24], key).value)
  {
    hide ParseTicket;
    if |data| >= 24 && box.open(data[24..], data[..24], key).Some? {
      TicketLayout(box.open(data[24..], data[..24], key).value);
    }
  }

  /** The plain text of an encoded ticket: session key, service, and the sealed part with its length. */
  predicate IsEnvelope(plain: seq<byte>) {
    |plain| >= 24 && |plain| >= 24 + Int32(plain, 20)
  }

  /**
   * A client accepts exactly what ends with the MAC of the rest under its derived key and decrypts to an
   * envelope, and gets what is in the envelope at its places.
   */
  lemma EncodedLayout(h: Hashes, data: seq<byte>, peerPid: u32, password: Option<string>)
    requires HashesSound(h)
    ensures |data| < 16 ==> DecodeTicket(h, data, peerPid, password).Err?
    ensures |data| >= 16 ==>
              var key, encrypted := Derived(h.md5, peerPid, password), data[..|data| - 16];
              var decoded, plain := DecodeTicket(h, data, peerPid, password), Rc4.Crypt(key, encrypted);
              && plain.Ok?
              && (decoded.Ok? <==> data[|data| - 16..] == h.hmac(key, encrypted) && IsEnvelope(plain.value))
              && (decoded.Ok? ==>
                    decoded.value == (plain.value[..16], Int32(plain.value, 16),
                                      plain.value[24..24 + Int32(plain.value, 20)]))
  {
    hide Derived, Rc4.Crypt, HashesSound, Int32;
    DerivedKeySize(h, peerPid, password);
    if |data| >= 16 {
      CryptOk(Derived(h.md5, peerPid, password), data[..|data| - 16]);
      EnvelopeRead(Rc4.Crypt(Derived(h.md5, peerPid, password), data[..|data| - 16]).value);
    }
  }

  lemma CryptOk(key: seq<byte>, data: seq<byte>)
    requires |key| == 16
    ensures Rc4.Crypt(key, data).Ok?
  {}

  lemma EnvelopeRead(plain: seq<byte>)
    ensures |plain| >= 16 ==> Take(plain, 16) == Ok((plain[..16], plain[16..]))
    ensures |plain| >= 20 ==> ReadUnsigned(plain[16..], 4) == Ok((Int32(plain, 16), plain[20..]))
    ensures |plain| >= 24 ==> ReadUnsigned(plain[20..], 4) == Ok((Int32(plain, 20), plain[24..]))
    ensures IsEnvelope(plain) ==> plain[24..][..Int32(plain, 20)] == plain[24..24 + Int32(plain, 20)]
  {
    hide Int32;
    if |plain| >= 20 {
      NumberRead(plain, 16);
    }
    if |plain| >= 24 {
      NumberRead(plain, 20);
    }
    if IsEnvelope(plain) {
      DropTake(plain, 24, Int32(plain, 20));
    }
  }

  lemma NumberRead(bs: seq<byte>, at: nat)
    requires at + 4 <= |bs|
    ensures ReadUnsigned(bs[at..], 4) == Ok((Int32(bs, at), bs[at + 4..]))
  {
    hide Int32;
    DropTake(bs, at, 4);
    FromLe4(bs[at..at + 4]);
    SameInt32(bs, at, at + 4);
  }

  // ---- RMC messages ----

  /** Where a message goes on behind its protocol id: a byte, or two behind an escape byte. */
  function BehindProtocol(data: seq<byte>): nat
    requires |data| >= 5
  {
    if data[4] == 0xff || data[4] == 0x7f then 7 else 5
  }

  /** The protocol id of a request or a response. */
  function ProtocolOf(data: seq<byte>): nat
    requires |data| >= 5 && |data| >= BehindProtocol(data)
  {
    if data[4] == 0xff || data[4] == 0x7f then Int16(data, 5) else data[4] % 0x80
  }

  /** A request has a size that covers it, a call id and a method id; the rest is parameters. */
  predicate IsRequest(data: seq<byte>) {
    && |data| >= 5 && data[4] >= 0x80 && |data| - 4 <= Int32(data, 0) && |data| >= BehindProtocol(data) + 8
  }

  /** A response says whether the call succeeded, and two numbers. */
  predicate IsResponse(data: seq<byte>) {
    && |data| >= 5 && data[4] < 0x80 && |data| >= BehindProtocol(data) + 9 && data[BehindProtocol(data)] <= 1
  }

  /** A method id as a response carries it, read as a signed number without bit 15. */
  function MethodOf(n: nat): int {
    var m := if n / 0x8000 % 2 == 1 then n - 0x8000 else n;
    if m < 0x8000_0000 then m else m - 0x1_0000_0000
  }

  predicate RequestSays(r: R.Request, data: seq<byte>)
    requires IsRequest(data)
  {
    var at := BehindProtocol(data);
    && r.protocolId == ProtocolOf(data) && r.callId == Int32(data, at) && r.methodId == Int32(data, at + 4)
    && r.parameters == data[at + 8..]
  }

  predicate ResponseSays(r: R.Response, data: seq<byte>)
    requires IsResponse(data)
  {
    var at := BehindProtocol(data);
    && r.protocolId == ProtocolOf(data)
    && (data[at] == 1 ==>
          r.outcome == R.Success(Int32(data, at + 1), MethodOf(Int32(data, at + 5)), data[at + 9..]))
    && (data[at] == 0 ==> r.outcome == R.Failure(Int32(data, at + 1), Int32(data, at + 5)))
  }

  lemma ShortRead(bs: seq<byte>, at: nat)
    requires at + 2 <= |bs|
    ensures ReadUnsigned(bs[at..], 2) == Ok((Int16(bs, at), bs[at + 2..]))
  {
    DropTake(bs, at, 2);
    FromLe2(bs[at..at + 2]);
  }

  lemma ByteRead(bs: seq<byte>, at: nat)
    requires at < |bs|
    ensures ReadUnsigned(bs[at..], 1) == Ok((bs[at], bs[at + 1..]))
  {
    DropTake(bs, at, 1);
    Le1(bs[at]);
    assert bs[at..at + 1] == [bs[at]];
  }

  lemma ProtocolRead(data: seq<byte>)
    requires |data| >= 5
    ensures var r := if data[4] >= 0x80 then R.ReadRequestProtocol(data[4..]) else R.ReadResponseProtocol(data[4..]);
            && (r.Ok? <==> |data| >= BehindProtocol(data)) && (r.Err? ==> r.error == StreamError)
            && (r.Ok? ==> r.value == (ProtocolOf(data), data[BehindProtocol(data)..]))
  {
    hide ReadUnsigned, Int16;
    ByteRead(data, 4);
    if |data| >= 7 {
      ShortRead(data, 5);
    } else {
      ReadsShort(data[5..], 2);
    }
  }

  lemma ReadsShort(bs: seq<byte>, width: nat)
    requires |bs| < width
    ensures ReadUnsigned(bs, width) == Err(StreamError)
  {}

  /** Exactly what has the layout of a request is parsed as one, with what is at its places. */
  lemma RequestLayout(data: seq<byte>)
    requires |data| >= 5 && data[4] >= 0x80
    ensures R.ParsePacket(data).Ok? <==> IsRequest(data)
    ensures R.ParsePacket(data).Ok? ==>
              R.ParsePacket(data).value.IsRequest? && RequestSays(R.ParsePacket(data).value.request, data)
    ensures R.ParsePacket(data).Err? ==>
              R.ParsePacket(data).error ==
              RmcError(if Int32(data, 0) < |data| - 4 then MissingData else ParsingError)
  {
    hide ReadUnsigned, Int32, R.ReadRequestProtocol, ProtocolOf;
    assert data[0..] == data;
    NumberRead(data, 0);
    ProtocolRead(data);
    var at := BehindProtocol(data);
    if |data| >= at + 4 {
      NumberRead(data, at);
      if |data| >= at + 8 {
        NumberRead(data, at + 4);
      } else {
        ReadsShort(data[at + 4..], 4);
      }
    } else if |data| >= at {
      ReadsShort(data[at..], 4);
    }
  }

  lemma OutcomeLayout(data: seq<byte>, at: nat)
    requires at <= |data|
    ensures var r := R.ReadOutcome(data[at..]);
            && (r.Ok? <==> |data| >= at + 9 && data[at] <= 1)
            && (r.Err? ==> r.error == if |data| > at && data[at] > 1 then RmcError(InvalidPacketType) else StreamError)
            && (r.Ok? && data[at] == 1 ==>
                  r.value == R.Success(Int32(data, at + 1), MethodOf(Int32(data, at + 5)), data[at + 9..]))
            && (r.Ok? && data[at] == 0 ==> r.value == R.Failure(Int32(data, at + 1), Int32(data, at + 5)))
  {
    hide ReadUnsigned, Int32;
    if |data| == at {
      ReadsShort(data[at..], 1);
    } else {
      ByteRead(data, at);
      if |data| >= at + 5 {
        NumberRead(data, at + 1);
        if |data| >= at + 9 {
          NumberRead(data, at + 5);
        } else {
          ReadsShort(data[at + 5..], 4);
        }
      } else {
        ReadsShort(data[at + 1..], 4);
      }
    }
  }

  /** Exactly what has the layout of a response is parsed as one, with what is at its places. */
  lemma ResponseLayout(data: seq<byte>)
    requires |data| >= 5 && data[4] < 0x80
    ensures R.ParsePacket(data).Ok? <==> IsResponse(data)
    ensures R.ParsePacket(data).Ok? ==>
              R.ParsePacket(data).value.IsResponse? && ResponseSays(R.ParsePacket(data).value.response, data)
    ensures R.ParsePacket(data).Err? ==>
              var at := BehindProtocol(data);
              R.ParsePacket(data).error ==
              RmcError(if |data| > at && data[at] > 1 then InvalidPacketType else ParsingError)
  {
    hide ReadUnsigned, Int32, R.ReadResponseProtocol, R.ReadOutcome, ProtocolOf, MethodOf;
    assert data[0..] == data;
    NumberRead(data, 0);
    ProtocolRead(data);
    var at := BehindProtocol(data);
    if |data| >= at {
      OutcomeLayout(data, at);
    }
  }

  lemma Part(bs: seq<byte>, at: nat, part: seq<byte>, rest: seq<byte>)
    requires at <= |bs| && bs[at..] == part + rest
    ensures at + |part| <= |bs| && bs[at..at + |part|] == part && bs[at + |part|..] == rest
  {
    DropTake(bs, at, |part|);
  }

  lemma NumberPart(bs: seq<byte>, at: nat, n: u32, rest: seq<byte>)
    requires at <= |bs| && bs[at..] == Le(n, 4) + rest
    ensures at + 4 <= |bs| && Int32(bs, at) == n && bs[at + 4..] == rest
  {
    hide Le, Int32;
    Part(bs, at, Le(n, 4), rest);
    Int32IsLe(bs, at, n);
  }

  lemma SizePart(body: seq<byte>)
    requires R.WithSize(body).Ok?
    ensures var bs := R.WithSize(body).value; |bs| == 4 + |body| && Int32(bs, 0) == |body| && bs[4..] == body
  {
    hide Le, Int32;
    var bs := R.WithSize(body).value;
    assert bs[0..] == bs;
    NumberPart(bs, 0, |body|, body);
  }

  /** An id as a request carries it: with bit 7 set, or behind 0xff. */
  predicate RequestIdSays(id: u32, bs: seq<byte>, at: nat) {
    && |bs| > 4 && bs[4] == (if id < 0x80 then id + 0x80 else if id < 0xff then id else 0xff)
    && at == (if id < 0xff then 5 else 7) && (at == 7 ==> |bs| >= 7 && Int16(bs, 5) == id % 0x1_0000)
  }

  /** An id as a response carries it: as it is, or behind 0x7f. */
  predicate ResponseIdSays(id: u32, bs: seq<byte>, at: nat) {
    && |bs| > 4 && bs[4] == (if id < 0x7f then id else 0x7f)
    && at == (if id < 0x7f then 5 else 7) && (at == 7 ==> |bs| >= 7 && Int16(bs, 5) == id % 0x1_0000)
  }

  lemma LongId(bs: seq<byte>, escape: byte, id: u32, rest: seq<byte>)
    requires |bs| >= 4 && bs[4..] == [escape, id % 256, id / 256 % 256] + rest
    ensures |bs| >= 7 && bs[4] == escape && Int16(bs, 5) == id % 0x1_0000 && bs[7..] == rest
  {
    Part(bs, 4, [escape, id % 256, id / 256 % 256], rest);
    assert bs[5] == bs[4..7][1] && bs[6] == bs[4..7][2] && bs[4] == bs[4..7][0];
    TwoDigits(id);
  }

  lemma TwoDigits(id: nat)
    ensures id % 256 + 256 * (id / 256 % 256) == id % 0x1_0000
  {
    var q := id / 256;
    Quotient(id, 0x1_0000, q / 256, 256 * (q % 256) + id % 256);
  }

  lemma ShortId(bs: seq<byte>, b: byte, rest: seq<byte>)
    requires |bs| >= 4 && bs[4..] == [b] + rest
    ensures |bs| >= 5 && bs[4] == b && bs[5..] == rest
  {
    Part(bs, 4, [b], rest);
    assert bs[4] == bs[4..5][0];
  }

  /** An encoded request says its own size, and all of its fields at their places. */
  lemma EncodedRequestLayout(r: R.Request)
    requires R.EncodeRequest(r).Ok?
    ensures var bs := R.EncodeRequest(r).value;
            var at := if r.protocolId < 0xff then 5 else 7;
            && RequestIdSays(r.protocolId, bs, at) && |bs| >= at + 8 && Int32(bs, 0) == |bs| - 4
            && Int32(bs, at) == r.callId && Int32(bs, at + 4) == r.methodId && bs[at + 8..] == r.parameters
  {
    hide Le, Int32, Int16;
    var bs, id := R.EncodeRequest(r).value, r.protocolId;
    var tail := Le(r.callId, 4) + (Le(r.methodId, 4) + r.parameters);
    SizePart(R.RequestProtocol(id) + tail);
    if id < 0xff {
      ShortId(bs, if id < 0x80 then id + 0x80 else id, tail);
    } else {
      LongId(bs, 0xff, id, tail);
    }
    var at := if id < 0xff then 5 else 7;
    NumberPart(bs, at, r.callId, Le(r.methodId, 4) + r.parameters);
    NumberPart(bs, at + 4, r.methodId, r.parameters);
  }

  /** The method id of a successful response has bit 15 set. */
  predicate Marked(methodId: int, n: nat) {
    var m := methodId % 0x1_0000_0000;
    n == if m / 0x8000 % 2 == 1 then m else m + 0x8000
  }

  lemma OutcomePlaces(bs: seq<byte>, at: nat, o: R.Outcome)
    requires at <= |bs| && bs[at..] == R.OutcomeBytes(o)
    ensures |bs| >= at + 9 && bs[at] == (if o.Success? then 1 else 0)
    ensures o.Success? ==>
              Int32(bs, at + 1) == o.callId && Marked(o.methodId, Int32(bs, at + 5)) && bs[at + 9..] == o.data
    ensures o.Failure? ==>
              Int32(bs, at + 1) == o.errorCode && Int32(bs, at + 5) == o.callId && |bs| == at + 9
  {
    hide Le, Int32;
    if o.Success? {
      var m := R.SetBit15(R.Unsigned32(o.methodId));
      Part(bs, at, [1], Le(o.callId, 4) + (Le(m, 4) + o.data));
      assert bs[at] == bs[at..at + 1][0];
      NumberPart(bs, at + 1, o.callId, Le(m, 4) + o.data);
      NumberPart(bs, at + 5, m, o.data);
    } else {
      Part(bs, at, [0], Le(o.errorCode, 4) + (Le(o.callId, 4) + []));
      assert bs[at] == bs[at..at + 1][0];
      NumberPart(bs, at + 1, o.errorCode, Le(o.callId, 4) + []);
      NumberPart(bs, at + 5, o.callId, []);
    }
  }

  /** So does an encoded response. */
  lemma EncodedResponseLayout(r: R.Response)
    requires R.EncodeResponse(r).Ok?
    ensures var bs, o := R.EncodeResponse(r).value, r.outcome;
            var at := if r.protocolId < 0x7f then 5 else 7;
            && ResponseIdSays(r.protocolId, bs, at) && |bs| >= at + 9 && Int32(bs, 0) == |bs| - 4
            && bs[at] == (if o.Success? then 1 else 0)
            && (o.Success? ==>
                  Int32(bs, at + 1) == o.callId && Marked(o.methodId, Int32(bs, at + 5)) && bs[at + 9..] == o.data)
            && (o.Failure? ==>
                  Int32(bs, at + 1) == o.errorCode && Int32(bs, at + 5) == o.callId && |bs| == at + 9)
  {
    hide Le, Int32, Int16, R.OutcomeBytes, Marked;
    var bs, id := R.EncodeResponse(r).value, r.protocolId;
    var tail := R.OutcomeBytes(r.outcome);
    SizePart(R.ResponseProtocol(id) + tail);
    if id < 0x7f {
      ShortId(bs, id, tail);
    } else {
      LongId(bs, 0x7f, id, tail);
    }
    OutcomePlaces(bs, if id < 0x7f then 5 else 7, r.outcome);
  }

  // ---- values ----

  /** The digits of `n` to the base 256, lowest first. */
  predicate Digits(n: nat, bs: seq<byte>) {
    forall i :: 0 <= i < |bs| ==> bs[i] == n / Pow256(i) % 256
  }

  /** Numbers are written in exactly their width, negative ones as their complement to the next power. */
  lemma NumberLayout(n: int, width: nat)
    ensures C.WriteUnsigned(n, width).Ok? <==> 0 <= n < Pow256(width)
    ensures C.WriteUnsigned(n, width).Ok? ==>
              |C.WriteUnsigned(n, width).value| == width && Digits(n, C.WriteUnsigned(n, width).value)
    ensures var p: int := Pow256(width);
            && (C.WriteSigned(n, width).Ok? <==> -p <= 2 * n < p)
            && (C.WriteSigned(n, width).Ok? ==>
                  && |C.WriteSigned(n, width).value| == width
                  && Digits(if n < 0 then n + p else n, C.WriteSigned(n, width).value))
  {
    hide Le, Pow256;
    if 0 <= n < Pow256(width) {
      LeDigits(n, width);
    }
    if -(Pow256(width) as int) <= n < 0 {
      LeDigits(n + Pow256(width), width);
    }
  }

  lemma LeDigits(n: nat, width: nat)
    ensures Digits(n, Le(n, width))
  {
    forall i | 0 <= i < width ensures Le(n, width)[i] == n / Pow256(i) % 256 {
      LeDigit(n, width, i);
    }
  }

  /** The empty string is its length; any other one has its UTF-8 bytes and a NUL, both counted, behind it. */
  lemma TextLayout(s: string)
    ensures s == [] ==> C.WriteText(s) == Ok([0, 0])
    ensures s != [] ==> (C.WriteText(s).Ok? <==> |T.Utf8(s)| + 1 < 0x1_0000)
    ensures s != [] && C.WriteText(s).Ok? ==>
              var bs := C.WriteText(s).value;
              && |bs| == |T.Utf8(s)| + 3 && Int16(bs, 0) == |T.Utf8(s)| + 1
              && bs[2..|bs| - 1] == T.Utf8(s) && bs[|bs| - 1] == 0
  {
    hide T.Utf8, Int16;
    if s == [] {
      assert Le(0, 1) == [0];
      assert Le(0, 2) == [0, 0];
    } else if C.WriteText(s).Ok? {
      var data := T.Utf8(s);
      var bs := C.WriteText(s).value;
      assert bs[0..2] == Le(|data| + 1, 2) && bs[2..|bs| - 1] == data;
      Int16IsLe(bs, 0, |data| + 1);
    }
  }

  /** The parts of a whole are the values of a list, one after another. */
  ghost predicate ItemsSay(item: C.Codec, vs: seq<C.Value>, parts: seq<seq<byte>>) {
    |parts| == |vs| && forall i :: 0 <= i < |vs| ==> C.Write(item, vs[i]) == Ok(parts[i])
  }

  /** A map is its entries, each a key and a value. */
  predicate EntrySays(key: C.Codec, value: C.Codec, e: (C.Value, C.Value), part: seq<byte>) {
    var k, v := C.Write(key, e.0), C.Write(value, e.1);
    k.Ok? && v.Ok? && part == k.value + v.value
  }

  ghost predicate EntriesSay(key: C.Codec, value: C.Codec, es: seq<(C.Value, C.Value)>, parts: seq<seq<byte>>) {
    |parts| == |es| && forall i :: 0 <= i < |es| ==> EntrySays(key, value, es[i], parts[i])
  }

  ghost predicate FieldsAre(fields: seq<C.Codec>, vs: seq<C.Value>, parts: seq<seq<byte>>) {
    |parts| == |vs| == |fields| && forall i :: 0 <= i < |vs| ==> C.Write(fields[i], vs[i]) == Ok(parts[i])
  }

  lemma ConcatFirst(part: seq<byte>, parts: seq<seq<byte>>)
    ensures Streams.Concat([part] + parts) == part + Streams.Concat(parts)
    decreases |parts|
  {
    if parts == [] {
      assert [part] + parts == [part] && [part][..0] == [];
    } else {
      var init, last := parts[..|parts| - 1], parts[|parts| - 1];
      ConcatFirst(part, init);
      assert ([part] + parts)[..|parts|] == [part] + init;
      Assoc(part, Streams.Concat(init), last);
    }
  }

  lemma {:induction false} ItemsLayout(item: C.Codec, vs: seq<C.Value>) returns (parts: seq<seq<byte>>)
    requires C.WriteItems(item, vs).Ok?
    ensures ItemsSay(item, vs, parts) && Streams.Concat(parts) == C.WriteItems(item, vs).value
    decreases |vs|
  {
    hide C.Write;
    if vs == [] {
      parts := [];
    } else {
      var rest := ItemsLayout(item, vs[1..]);
      parts := [C.Write(item, vs[0]).value] + rest;
      ConcatFirst(parts[0], rest);
    }
  }

  lemma {:induction false} FieldsLayoutOf(fields: seq<C.Codec>, vs: seq<C.Value>) returns (parts: seq<seq<byte>>)
    requires C.WriteFields(fields, vs).Ok?
    ensures FieldsAre(fields, vs, parts) && Streams.Concat(parts) == C.WriteFields(fields, vs).value
    decreases |vs|
  {
    hide C.Write;
    if fields == [] {
      parts := [];
    } else {
      var rest := FieldsLayoutOf(fields[1..], vs[1..]);
      parts := [C.Write(fields[0], vs[0]).value] + rest;
      ConcatFirst(parts[0], rest);
    }
  }

  lemma {:induction false} EntriesLayout(key: C.Codec, value: C.Codec, es: seq<(C.Value, C.Value)>)
    returns (parts: seq<seq<byte>>)
    requires C.WriteEntries(key, value, es).Ok?
    ensures EntriesSay(key, value, es, parts) && Streams.Concat(parts) == C.WriteEntries(key, value, es).value
    decreases |es|
  {
    hide C.Write;
    if es == [] {
      parts := [];
    } else {
      var rest := EntriesLayout(key, value, es[1..]);
      parts := [C.WritePair(key, value, es[0]).value] + rest;
      ConcatFirst(parts[0], rest);
    }
  }

  /** What every primitive is written as. */
  predicate PrimitiveSays(c: C.Primitive, v: C.Value, bs: seq<byte>) {
    match c
    case Bool => v.Flag? && bs == [if v.b then 1 else 0]
    case Buffer(prefix) =>
      && v.Bytes? && (prefix == 4 ==> |bs| >= 4 && Int32(bs, 0) == |v.bytes| && bs[4..] == v.bytes)
      && (prefix == 2 ==> |bs| >= 2 && Int16(bs, 0) == |v.bytes| && bs[2..] == v.bytes)
    case Fixed(size) => v == C.Bytes(bs) && |bs| == size
    case Tail => v == C.Bytes(bs)
    case Text => v.String? && C.WriteText(v.s) == Ok(bs)
    case Url => v.Station? && C.WriteText(U.PrintUrl(v.url)) == Ok(bs)
    case Unsigned(width) => v.Number? && C.WriteUnsigned(v.n, width) == Ok(bs)
    case Signed(width) => v.Number? && C.WriteSigned(v.n, width) == Ok(bs)
  }

  /** What every value is written as, given what its parts are written as. */
  ghost predicate ValueSays(c: C.Codec, v: C.Value, bs: seq<byte>) {
    match c
    case One(p) => PrimitiveSays(p, v, bs)
    case List(item) =>
      && v.Items? && |bs| >= 4 && Int32(bs, 0) == |v.items|
      && exists parts :: ItemsSay(item, v.items, parts) && bs[4..] == Streams.Concat(parts)
    case Map(key, value) =>
      && v.Entries? && |bs| >= 4 && Int32(bs, 0) == |v.entries|
      && exists parts :: EntriesSay(key, value, v.entries, parts) && bs[4..] == Streams.Concat(parts)
    case Struct(fields) => v.Items? && exists parts :: FieldsAre(fields, v.items, parts) && bs == Streams.Concat(parts)
    case Union(cases) =>
      && v.Tagged? && v.tag < |cases| && bs != [] && bs[0] == v.tag && C.Write(cases[v.tag], v.content) == Ok(bs[1..])
    case Nested(inner) => |bs| >= 4 && Int32(bs, 0) == |bs| - 4 && C.Write(inner, v) == Ok(bs[4..])
  }

  lemma PrimitiveLayout(c: C.Primitive, v: C.Value)
    requires C.WriteOne(c, v).Ok?
    ensures PrimitiveSays(c, v, C.WriteOne(c, v).value)
  {
    hide Int32, Int16, Le, C.WriteText;
    if c.Buffer? && c.prefix == 4 {
      NumberFirst(|v.bytes|, v.bytes);
    } else if c.Buffer? && c.prefix == 2 {
      var bs := C.WriteOne(c, v).value;
      Widths();
      assert bs[0..2] == Le(|v.bytes|, 2);
      Int16IsLe(bs, 0, |v.bytes|);
    }
  }

  lemma NumberFirst(n: nat, rest: seq<byte>)
    requires C.WriteUnsigned(n, 4).Ok?
    ensures var bs := C.WriteUnsigned(n, 4).value + rest; |bs| >= 4 && Int32(bs, 0) == n && bs[4..] == rest
  {
    hide Int32, Le;
    Widths();
    var bs := Le(n, 4) + rest;
    assert bs[0..] == bs;
    NumberPart(bs, 0, n, rest);
  }

  lemma TagFirst(n: nat, rest: seq<byte>)
    requires C.WriteUnsigned(n, 1).Ok?
    ensures var bs := C.WriteUnsigned(n, 1).value + rest; bs != [] && bs[0] == n && bs[1..] == rest
  {
    Widths();
    Le1(n);
  }

  /** Whatever a codec writes has the layout of its kind. */
  lemma ValueLayout(c: C.Codec, v: C.Value)
    requires C.Write(c, v).Ok?
    ensures ValueSays(c, v, C.Write(c, v).value)
  {
    hide C.WriteUnsigned, C.WriteItems, C.WriteEntries, C.WriteFields, C.WriteOne, PrimitiveSays, Int32;
    hide ItemsSay, EntriesSay, FieldsAre;
    match c
    case One(p) => PrimitiveLayout(p, v);
    case List(item) =>
      var parts := ItemsLayout(item, v.items);
      NumberFirst(|v.items|, C.WriteItems(item, v.items).value);
    case Map(key, value) =>
      var parts := EntriesLayout(key, value, v.entries);
      NumberFirst(|v.entries|, C.WriteEntries(key, value, v.entries).value);
    case Struct(fields) =>
      var parts := FieldsLayoutOf(fields, v.items);
    case Union(cases) => TagFirst(v.tag, C.Write(cases[v.tag], v.content).value);
    case Nested(inner) => NumberFirst(|C.Write(inner, v).value|, C.Write(inner, v).value);
  }
}
