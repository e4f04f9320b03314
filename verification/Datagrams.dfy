/** Datagrams of several packets, the byte-level loops, and the errors a checksum catches. */
module Datagrams {
  import opened Basics
  import Rc4
  import opened Checksums
  import opened Packets

  // ---- splitting a datagram ----

  /** The packets a datagram makes the server handle: it stops at one it cannot parse, and skips invalid ones. */
  function Split(ctx: Context, data: seq<byte>): seq<QPacket>
    decreases |data|
  {
    if data == [] then [] else
    match Parse(ctx, data)
    case Err(_) => []
    case Ok((p, n)) => (if ChecksumMatches(ctx, p, data[..n]) then [p] else []) + Split(ctx, data[n..])
  }

  function SerializeAll(ctx: Context, ps: seq<QPacket>): Result<seq<byte>> {
    if ps == [] then Ok([]) else
    var first :- Serialize(ctx, ps[0]);
    var rest :- SerializeAll(ctx, ps[1..]);
    Ok(first + rest)
  }

  /** A packet that can be sent and whose payload its receiver can open. */
  predicate Arrives(ctx: Context, p: QPacket) {
    Serialize(ctx, p).Ok? && OpenPayload(ctx, Secure(p), SealPayload(ctx, p).value).Ok?
  }

  function Arrived(ctx: Context, p: QPacket): QPacket
    requires Arrives(ctx, p)
  {
    var (payload, compressed) := OpenPayload(ctx, Secure(p), SealPayload(ctx, p).value).value;
    OnWire(ctx, p).(payload := payload, useCompression := compressed)
  }

  lemma TransparentArrives(ctx: Context, p: QPacket)
    requires ZlibSound(ctx.zlib) && Serialize(ctx, p).Ok? && Transparent(ctx, p)
    ensures Arrives(ctx, p) && Arrived(ctx, p) == OnWire(ctx, p)
  {
    ArrivalIsTransparent(ctx, p);
  }

  predicate SizedButLast(ps: seq<QPacket>) {
    forall i :: 0 <= i < |ps| - 1 ==> HasSize(ps[i])
  }

  lemma SplitFirst(ctx: Context, p: QPacket, rest: seq<byte>)
    requires Arrives(ctx, p) && (HasSize(p) || rest == [])
    ensures Split(ctx, Serialize(ctx, p).value + rest) == [Arrived(ctx, p)] + Split(ctx, rest)
  {
    hide Serialize, OpenPayload, SealPayload, OnWire;
    var bytes := Serialize(ctx, p).value;
    ParseSerialized(ctx, p, rest);
    SerializedIsValid(ctx, p, rest);
    assert (bytes + rest)[|bytes|..] == rest;
  }

  /** Any run of packets, of which only the last may lack a size field, is split into exactly those packets. */
  lemma {:induction false} SplitSerialized(ctx: Context, ps: seq<QPacket>)
    requires SizedButLast(ps) && SerializeAll(ctx, ps).Ok?
    requires forall p :: p in ps ==> Arrives(ctx, p)
    ensures |Split(ctx, SerializeAll(ctx, ps).value)| == |ps|
    ensures forall i :: 0 <= i < |ps| ==> Split(ctx, SerializeAll(ctx, ps).value)[i] == Arrived(ctx, ps[i])
  {
    hide Serialize, Arrives, Arrived;
    if ps == [] {
    } else {
      SplitSerialized(ctx, ps[1..]);
      var rest := SerializeAll(ctx, ps[1..]).value;
      assert HasSize(ps[0]) || rest == [] by {
        if |ps| == 1 {
          assert ps[1..] == [];
        }
      }
      SplitFirst(ctx, ps[0], rest);
    }
  }

  /**
   * What cannot be parsed ends a datagram, and a packet with a wrong checksum is left out of it: nothing
   * behind the one, but everything behind the other is handled.
   */
  lemma InvalidIsSkipped(ctx: Context, data: seq<byte>)
    requires data != []
    ensures Parse(ctx, data).Err? ==> Split(ctx, data) == []
    ensures Parse(ctx, data).Ok? ==>
              var (p, n) := Parse(ctx, data).value;
              var key := if p.destination.streamType == 3 then ByteSum(ctx.accessKey) else 0;
              Split(ctx, data) ==
              (if p.checksum == Checksum(key, data[..n - 1]) then [p] else []) + Split(ctx, data[n..])
  {
    hide Parse, ChecksumMatches, Checksum;
    if Parse(ctx, data).Ok? {
      var (p, n) := Parse(ctx, data).value;
      AcceptedWhen(ctx, p, data[..n]);
      assert data[..n][..n - 1] == data[..n - 1];
    }
  }

  // ---- corrupted packets ----

  lemma ParseKeepsChecksum(ctx: Context, data: seq<byte>)
    requires Parse(ctx, data).Ok?
    ensures var (p, n) := Parse(ctx, data).value; p.checksum == data[n - 1]
  {
    var head := ParseHead(data[..10]).value;
    var k := SpecificSize(head.packetType);
    var p := WithSpecific(head, data[10..10 + k]);
    var body := data[10 + k..];
    var (q, n) := ParsePayload(ctx, p, body).value;
    if HasSize(p) {
      assert body[2..][n - 3] == body[n - 1];
    }
  }

  /**
   * Changing any one byte of a valid packet, its checksum included, by at most 252 makes it invalid,
   * as long as it still has the same length and is checked with the same key.
   */
  lemma CorruptionDetected(ctx: Context, raw: seq<byte>, at: nat, b: byte)
    requires at < |raw| && b != raw[at] && -252 <= b - raw[at] <= 252
    requires Parse(ctx, raw).Ok? && Parse(ctx, raw).value.1 == |raw|
    requires Parse(ctx, raw[at := b]).Ok? && Parse(ctx, raw[at := b]).value.1 == |raw|
    requires Parse(ctx, raw).value.0.destination.streamType == Parse(ctx, raw[at := b]).value.0.destination.streamType
    requires ChecksumMatches(ctx, Parse(ctx, raw).value.0, raw)
    ensures !ChecksumMatches(ctx, Parse(ctx, raw[at := b]).value.0, raw[at := b])
  {
    hide Parse, Checksum;
    var bad := raw[at := b];
    ParseKeepsChecksum(ctx, raw);
    ParseKeepsChecksum(ctx, bad);
    var last := |raw| - 1;
    var key := ChecksumKey(ctx, Parse(ctx, raw).value.0.destination.streamType);
    if at == last {
      assert bad[..last] == raw[..last];
    } else {
      assert bad[..last] == raw[..last][at := b];
      SingleByteErrorDetected(key, raw[..last], at, b);
    }
  }

  // ---- the parser and the printer as they run ----

  method SumKey(accessKey: seq<byte>) returns (sum: u32)
    ensures sum == ByteSum(accessKey) % 0x1_0000_0000
  {
    hide ByteSum;
    NoBytes();
    sum := 0;
    for i := 0 to |accessKey|
      invariant sum == ByteSum(accessKey[..i]) % 0x1_0000_0000
    {
      ByteSumNext(accessKey[..i], accessKey[i]);
      AddWrapped(ByteSum(accessKey[..i]), accessKey[i]);
      sum := (sum + accessKey[i]) % 0x1_0000_0000;
      assert accessKey[..i + 1] == accessKey[..i] + [accessKey[i]];
    }
    assert accessKey[..|accessKey|] == accessKey;
  }

  lemma NoBytes()
    ensures ByteSum([]) == 0
  {}

  method KeyFor(ctx: Context, streamType: StreamType) returns (key: nat)
    ensures key == ChecksumKey(ctx, streamType)
  {
    if streamType != RVSEC {
      return 0;
    }
    key := SumKey(ctx.accessKey);
  }

  /** The offset only moves forward, and nothing is read before it is known to be there. */
  method FromBytes(ctx: Context, data: seq<byte>) returns (r: Result<(QPacket, nat)>)
    ensures r == Parse(ctx, data)
  {
    hide OpenPayload, U32, U16, VPortFromByte;
    var truncated := Err(PacketError);
    if |data| < 10 {
      return truncated;
    }
    assert data[..10][4..8] == data[4..8] && data[..10][8..10] == data[8..10];
    var source :- VPortFromByte(data[0]);
    var destination :- VPortFromByte(data[1]);
    if data[2] / 8 >= 16 {
      return Err(PacketError);
    }
    var packet := QPacket(source, destination, data[2] % 8, data[2] / 8, data[3],
                          U32(data[4..8]), U16(data[8..10]), None, None, [], 0, false);
    var offset := 10;
    if packet.packetType == SYN || packet.packetType == CONNECT {
      if offset + 4 > |data| {
        return truncated;
      }
      packet := packet.(connSignature := Some(U32(data[offset..offset + 4])));
      offset := offset + 4;
    }
    if packet.packetType == DATA {
      if offset + 1 > |data| {
        return truncated;
      }
      packet := packet.(fragmentId := Some(data[offset]));
      offset := offset + 1;
    }
    assert offset == 10 + SpecificSize(packet.packetType);
    r := FromBody(ctx, packet, data, offset);
  }

  method FromBody(ctx: Context, p: QPacket, data: seq<byte>, at: nat) returns (r: Result<(QPacket, nat)>)
    requires at <= |data|
    ensures r == match ParsePayload(ctx, p, data[at..]) case Ok((q, n)) => Ok((q, at + n)) case Err(e) => Err(e)
  {
    var packet, offset := p, at;
    var payloadSize := |data| - offset - 1;
    if HasSize(packet) {
      if offset + 2 > |data| {
        return Err(PacketError);
      }
      payloadSize := FromLe(data[offset..offset + 2]);
      assert data[at..][..2] == data[at..at + 2] && data[at..][2..] == data[at + 2..];
      offset := offset + 2;
    }
    if payloadSize < 0 || offset + payloadSize + 1 > |data| {
      return Err(PacketError);
    }
    var payload := data[offset..offset + payloadSize];
    assert data[offset..][..payloadSize] == payload && data[offset..][payloadSize] == data[offset + payloadSize];
    if packet.packetType != SYN && packet.source.streamType == RVSEC {
      payload :- Rc4.CryptKey(ctx.cryptoKey, payload);
      packet := packet.(useCompression := |payload| > 0 && payload[0] != 0);
      if packet.useCompression {
        var inflated := ctx.zlib.inflate(payload[1..]);
        if inflated.None? {
          return Err(PacketError);
        }
        payload := inflated.value;
      } else if |payload| > 0 {
        payload := payload[1..];
      }
    } else {
      packet := packet.(useCompression := false);
    }
    packet := packet.(payload := payload, checksum := data[offset + payloadSize]);
    r := Ok((packet, offset + payloadSize + 1));
  }

  method ToBytes(ctx: Context, p: QPacket) returns (r: Result<seq<byte>>)
    ensures r == Serialize(ctx, p)
  {
    var specific :- Specific(p);
    var payload: seq<byte> := [];
    if |p.payload| > 0 {
      if p.useCompression {
        payload := [Ratio(ctx.zlib, p.payload)] + ctx.zlib.deflate(p.payload);
      } else {
        payload := [0] + p.payload;
      }
    }
    if p.packetType != SYN && p.source.streamType == RVSEC {
      payload :- Rc4.CryptKey(ctx.cryptoKey, payload);
    }
    var size: seq<byte> := [];
    if HasSize(p) {
      if |payload| >= 0x1_0000 {
        return Err(RangeError);
      }
      size := Le(|payload|, 2);
    }
    var data := Head(p) + specific + size + payload;
    var key := KeyFor(ctx, p.destination.streamType);
    var checksum := CalcChecksum(key, data);
    r := Ok(data + [checksum]);
  }

  method Validate(ctx: Context, p: QPacket, raw: seq<byte>) returns (valid: bool)
    requires raw != []
    ensures valid == ChecksumMatches(ctx, p, raw)
  {
    var key := KeyFor(ctx, p.destination.streamType);
    var expected := CalcChecksum(key, raw[..|raw| - 1]);
    valid := p.checksum == expected;
  }
}
