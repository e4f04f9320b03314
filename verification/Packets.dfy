/** PRUDP packets: layout, encryption, compression and checksum. */
module Packets {
  import opened Basics
  import Rc4
  import opened Checksums

  // ---- configuration and foreign code ----

  /** zlib at level 6, and inflation that gives up beyond MAX_DECOMPRESSED_SIZE. */
  datatype Zlib = Zlib(deflate: seq<byte> -> seq<byte>, inflate: seq<byte> -> Option<seq<byte>>)

  /** NaCl's secretbox: (message, nonce, key). */
  datatype SecretBox = SecretBox(seal: (seq<byte>, seq<byte>, seq<byte>) -> seq<byte>,
                                 open: (seq<byte>, seq<byte>, seq<byte>) -> Option<seq<byte>>)

  datatype Context = Context(accessKey: seq<byte>, cryptoKey: seq<byte>, ticketKey: seq<byte>,
                             zlib: Zlib, box: SecretBox)

  const MAX_DECOMPRESSED_SIZE := 0x1_0000
  const MAX_PAYLOAD_SIZE := 1000

  /**
   * The facts about zlib that are used: inflating undoes deflating within the limit, a stream has a
   * header, a block and a check value (section 2.2 of RFC 1950), and 1000 bytes grow only a little.
   */
  ghost predicate ZlibSound(z: Zlib) {
    forall p: seq<byte> ::
      && z.inflate(z.deflate(p)) == (if |p| <= MAX_DECOMPRESSED_SIZE then Some(p) else None)
      && 6 <= |z.deflate(p)|
      && (|p| <= MAX_PAYLOAD_SIZE ==> |z.deflate(p)| <= MAX_PAYLOAD_SIZE + 1000)
  }

  /** The assumed facts can hold together. */
  lemma SoundZlib() returns (z: Zlib)
    ensures ZlibSound(z)
  {
    z := Zlib(p => [0, 0, 0, 0, 0, 0] + p,
              d => if 6 <= |d| <= MAX_DECOMPRESSED_SIZE + 6 then Some(d[6..]) else None);
    forall p: seq<byte>
      ensures z.inflate(z.deflate(p)) == if |p| <= MAX_DECOMPRESSED_SIZE then Some(p) else None
    {
      assert z.deflate(p)[6..] == p;
    }
  }

  ghost predicate ValidContext(ctx: Context) {
    Rc4.ValidKey(ctx.cryptoKey) && ZlibSound(ctx.zlib)
  }

  // ---- packets ----

  type StreamType = n: int | 1 <= n <= 8 witness 1
  const RVSEC: StreamType := 3

  datatype VPort = VPort(port: nat, streamType: StreamType)

  type PacketType = n: int | 0 <= n < 8
  const SYN: PacketType := 0
  const CONNECT: PacketType := 1
  const DATA: PacketType := 2
  const DISCONNECT: PacketType := 3
  const PING: PacketType := 4
  const USER: PacketType := 5

  /** The sum of Ack = 1, Reliable = 2, NeedAck = 4 and HasSize = 8. */
  type Flags = n: int | 0 <= n < 16

  datatype QPacket = QPacket(
    source: VPort, destination: VPort, packetType: PacketType, flags: Flags,
    sessionId: byte, signature: u32, sequence: u16,
    fragmentId: Option<nat>, connSignature: Option<u32>,
    payload: seq<byte>, checksum: byte, useCompression: bool)

  predicate IsAck(p: QPacket) {
    p.flags % 2 == 1
  }

  predicate HasSize(p: QPacket) {
    p.flags >= 8
  }

  predicate HasConnSignature(t: PacketType) {
    t == SYN || t == CONNECT
  }

  /** Payloads on RVSec streams are encrypted, except in SYN packets. */
  predicate Secure(p: QPacket) {
    p.packetType != SYN && p.source.streamType == RVSEC
  }

  function VPortToByte(v: VPort): byte {
    v.port % 16 + 16 * v.streamType
  }

  function VPortFromByte(b: byte): Result<VPort> {
    if 1 <= b / 16 <= 8 then Ok(VPort(b % 16, b / 16)) else Err(PacketError)
  }

  function ChecksumKey(ctx: Context, streamType: StreamType): nat {
    if streamType == RVSEC then ByteSum(ctx.accessKey) % 0x1_0000_0000 else 0
  }

  // ---- parsing ----

  function ParseHead(head: seq<byte>): Result<QPacket>
    requires |head| == 10
  {
    var source :- VPortFromByte(head[0]);
    var destination :- VPortFromByte(head[1]);
    if head[2] / 8 >= 16 then Err(PacketError) else
    Ok(QPacket(source, destination, head[2] % 8, head[2] / 8, head[3],
               U32(head[4..8]), U16(head[8..10]), None, None, [], 0, false))
  }

  function U32(bs: seq<byte>): u32
    requires |bs| == 4
  {
    FromLeBound(bs);
    Widths();
    FromLe(bs)
  }

  function U16(bs: seq<byte>): u16
    requires |bs| == 2
  {
    FromLeBound(bs);
    Widths();
    FromLe(bs)
  }

  function SpecificSize(t: PacketType): nat {
    if HasConnSignature(t) then 4 else if t == DATA then 1 else 0
  }

  function WithSpecific(p: QPacket, bs: seq<byte>): QPacket
    requires |bs| == SpecificSize(p.packetType)
  {
    if HasConnSignature(p.packetType) then p.(connSignature := Some(U32(bs)))
    else if p.packetType == DATA then p.(fragmentId := Some(bs[0]))
    else p
  }

  /** Strips the byte in front of a payload: zero, or nonzero in front of a compressed one. */
  function Unframe(z: Zlib, frame: seq<byte>): Result<(seq<byte>, bool)> {
    if frame == [] then Ok(([], false))
    else if frame[0] == 0 then Ok((frame[1..], false))
    else match z.inflate(frame[1..])
      case None => Err(PacketError)
      case Some(p) => Ok((p, true))
  }

  function OpenPayload(ctx: Context, secure: bool, raw: seq<byte>): Result<(seq<byte>, bool)> {
    if !secure then Ok((raw, false)) else
    var frame :- Rc4.Crypt(ctx.cryptoKey, raw);
    Unframe(ctx.zlib, frame)
  }

  function ParseSized(ctx: Context, p: QPacket, bs: seq<byte>, size: nat): Result<(QPacket, nat)> {
    if |bs| < size + 1 then Err(PacketError) else
    var (payload, compressed) :- OpenPayload(ctx, Secure(p), bs[..size]);
    Ok((p.(payload := payload, useCompression := compressed, checksum := bs[size]), size + 1))
  }

  function ParsePayload(ctx: Context, p: QPacket, bs: seq<byte>): Result<(QPacket, nat)> {
    if HasSize(p) then
      if |bs| < 2 then Err(PacketError) else
      var (q, n) :- ParseSized(ctx, p, bs[2..], FromLe(bs[..2]));
      Ok((q, 2 + n))
    else if bs == [] then Err(PacketError)
    else ParseSized(ctx, p, bs, |bs| - 1)
  }

  /** The packet at the start of `data` and the number of bytes it takes. */
  function Parse(ctx: Context, data: seq<byte>): (r: Result<(QPacket, nat)>)
    ensures r.Ok? ==> 10 < r.value.1 <= |data|
  {
    if |data| < 10 then Err(PacketError) else
    var head :- ParseHead(data[..10]);
    var k := SpecificSize(head.packetType);
    if |data| < 10 + k then Err(PacketError) else
    var (p, n) :- ParsePayload(ctx, WithSpecific(head, data[10..10 + k]), data[10 + k..]);
    Ok((p, 10 + k + n))
  }

  predicate ChecksumMatches(ctx: Context, p: QPacket, raw: seq<byte>)
    requires raw != []
  {
    p.checksum == Checksum(ChecksumKey(ctx, p.destination.streamType), raw[..|raw| - 1])
  }

  // ---- serialising ----

  function Head(p: QPacket): (bs: seq<byte>)
    ensures |bs| == 10
  {
    [VPortToByte(p.source), VPortToByte(p.destination), p.packetType + 8 * p.flags, p.sessionId]
    + Le(p.signature, 4) + Le(p.sequence, 2)
  }

  function Specific(p: QPacket): (r: Result<seq<byte>>)
    ensures r.Ok? ==> |r.value| == SpecificSize(p.packetType)
  {
    if HasConnSignature(p.packetType) then
      if p.connSignature.None? then Err(PacketError) else Ok(Le(p.connSignature.value, 4))
    else if p.packetType == DATA then
      if p.fragmentId.None? then Err(PacketError) else Ok([p.fragmentId.value % 256])
    else Ok([])
  }

  function Ratio(z: Zlib, payload: seq<byte>): byte {
    var n := |z.deflate(payload)|;
    if n == 0 then 0 else (|payload| / n + 1) % 256
  }

  function Frame(z: Zlib, p: QPacket): seq<byte> {
    if p.payload == [] then []
    else if p.useCompression then [Ratio(z, p.payload)] + z.deflate(p.payload)
    else [0] + p.payload
  }

  function SealPayload(ctx: Context, p: QPacket): Result<seq<byte>> {
    if Secure(p) then Rc4.Crypt(ctx.cryptoKey, Frame(ctx.zlib, p)) else Ok(Frame(ctx.zlib, p))
  }

  function SizeField(p: QPacket, n: nat): Result<seq<byte>> {
    if !HasSize(p) then Ok([]) else if n < 0x1_0000 then Ok(Le(n, 2)) else Err(RangeError)
  }

  /** Everything the checksum covers. */
  function DataBytes(ctx: Context, p: QPacket): Result<seq<byte>> {
    var specific :- Specific(p);
    var sealed :- SealPayload(ctx, p);
    var size :- SizeField(p, |sealed|);
    Ok(Head(p) + specific + size + sealed)
  }

  function Seal(ctx: Context, p: QPacket, data: seq<byte>): byte {
    Checksum(ChecksumKey(ctx, p.destination.streamType), data)
  }

  function Serialize(ctx: Context, p: QPacket): Result<seq<byte>> {
    var data :- DataBytes(ctx, p);
    Ok(data + [Seal(ctx, p, data)])
  }

  // ---- what arrives ----

  /** `p` as a receiver can see it at best: fields reduced to their width, fields of other types absent. */
  function OnWire(ctx: Context, p: QPacket): QPacket
    requires DataBytes(ctx, p).Ok?
  {
    p.(source := VPort(p.source.port % 16, p.source.streamType),
       destination := VPort(p.destination.port % 16, p.destination.streamType),
       connSignature := if HasConnSignature(p.packetType) then p.connSignature else None,
       fragmentId := if p.packetType == DATA && p.fragmentId.Some? then Some(p.fragmentId.value % 256) else None,
       useCompression := p.useCompression && p.payload != [],
       checksum := Seal(ctx, p, DataBytes(ctx, p).value))
  }

  /**
   * The packets whose payload survives. Only encrypted payloads get their leading byte stripped
   * again; a compressed one must inflate within the limit, and its ratio must not be 0 modulo 256.
   */
  ghost predicate Transparent(ctx: Context, p: QPacket) {
    p.payload != [] ==>
      Secure(p) && (p.useCompression ==> |p.payload| <= 65_536 && Ratio(ctx.zlib, p.payload) != 0)
  }

  lemma HeadRoundTrip(p: QPacket)
    ensures ParseHead(Head(p)) ==
            Ok(p.(source := VPort(p.source.port % 16, p.source.streamType),
                  destination := VPort(p.destination.port % 16, p.destination.streamType),
                  connSignature := None, fragmentId := None, payload := [], checksum := 0, useCompression := false))
  {
    var head := Head(p);
    assert head[4..8] == Le(p.signature, 4) && head[8..10] == Le(p.sequence, 2);
    Widths();
    FromLeLe(p.signature, 4);
    FromLeLe(p.sequence, 2);
    VPortRoundTrip(p.source);
    VPortRoundTrip(p.destination);
    Bits(p.packetType, p.flags);
  }

  lemma VPortRoundTrip(v: VPort)
    ensures VPortFromByte(VPortToByte(v)) == Ok(VPort(v.port % 16, v.streamType))
  {}

  lemma Bits(t: PacketType, flags: Flags)
    ensures (t + 8 * flags) % 8 == t && (t + 8 * flags) / 8 == flags
  {}

  lemma SpecificRoundTrip(p: QPacket, q: QPacket)
    requires Specific(p).Ok? && q.packetType == p.packetType
    ensures WithSpecific(q, Specific(p).value) ==
            if HasConnSignature(p.packetType) then q.(connSignature := p.connSignature)
            else if p.packetType == DATA then q.(fragmentId := Some(p.fragmentId.value % 256))
            else q
  {
    Widths();
    if HasConnSignature(p.packetType) {
      FromLeLe(p.connSignature.value, 4);
    }
  }

  lemma OpenSealed(ctx: Context, p: QPacket)
    requires SealPayload(ctx, p).Ok?
    ensures OpenPayload(ctx, Secure(p), SealPayload(ctx, p).value) ==
            if Secure(p) then Unframe(ctx.zlib, Frame(ctx.zlib, p)) else Ok((Frame(ctx.zlib, p), false))
  {
    if Secure(p) {
      Rc4.CryptCancel(ctx.cryptoKey, Frame(ctx.zlib, p));
    }
  }

  lemma UnframeFrame(z: Zlib, p: QPacket)
    requires ZlibSound(z)
    ensures Unframe(z, Frame(z, p)) == Ok((p.payload, p.useCompression && p.payload != []))
            <==> (p.useCompression && p.payload != [] ==>
                    |p.payload| <= MAX_DECOMPRESSED_SIZE && Ratio(z, p.payload) != 0)
  {
    if p.payload != [] {
      if p.useCompression {
        assert z.inflate(z.deflate(p.payload)) ==
               if |p.payload| <= MAX_DECOMPRESSED_SIZE then Some(p.payload) else None;
        assert Frame(z, p)[1..] == z.deflate(p.payload);
      } else {
        assert Frame(z, p)[1..] == p.payload;
      }
    }
  }

  lemma ArrivalIsTransparent(ctx: Context, p: QPacket)
    requires ZlibSound(ctx.zlib) && SealPayload(ctx, p).Ok?
    ensures OpenPayload(ctx, Secure(p), SealPayload(ctx, p).value) ==
            Ok((p.payload, p.useCompression && p.payload != []))
            <==> Transparent(ctx, p)
  {
    OpenSealed(ctx, p);
    if Secure(p) {
      UnframeFrame(ctx.zlib, p);
    } else if p.payload != [] && !p.useCompression {
      assert |Frame(ctx.zlib, p)| == |p.payload| + 1;
    }
  }

  lemma ParseSizedSealed(ctx: Context, q: QPacket, sealed: seq<byte>, checksum: byte, rest: seq<byte>)
    ensures var arrived := OpenPayload(ctx, Secure(q), sealed);
            ParseSized(ctx, q, sealed + ([checksum] + rest), |sealed|) ==
            if arrived.Err? then Err(arrived.error)
            else Ok((q.(payload := arrived.value.0, useCompression := arrived.value.1, checksum := checksum),
                     |sealed| + 1))
  {
    var bs := sealed + ([checksum] + rest);
    assert bs[..|sealed|] == sealed && bs[|sealed|] == checksum;
  }

  lemma ParsePayloadSealed(ctx: Context, p: QPacket, q: QPacket, checksum: byte, rest: seq<byte>)
    requires SealPayload(ctx, p).Ok? && SizeField(p, |SealPayload(ctx, p).value|).Ok?
    requires q.flags == p.flags && Secure(q) == Secure(p)
    requires HasSize(p) || rest == []
    ensures var sealed := SealPayload(ctx, p).value;
            var size := SizeField(p, |sealed|).value;
            var arrived := OpenPayload(ctx, Secure(p), sealed);
            ParsePayload(ctx, q, size + (sealed + ([checksum] + rest))) ==
            if arrived.Err? then Err(arrived.error)
            else Ok((q.(payload := arrived.value.0, useCompression := arrived.value.1, checksum := checksum),
                     |size| + |sealed| + 1))
  {
    hide SealPayload, OpenPayload, ParseSized;
    var sealed := SealPayload(ctx, p).value;
    var size := SizeField(p, |sealed|).value;
    var bs := sealed + ([checksum] + rest);
    ParseSizedSealed(ctx, q, sealed, checksum, rest);
    if HasSize(p) {
      Widths();
      FromLeLe(|sealed|, 2);
      assert (size + bs)[..2] == size && (size + bs)[2..] == bs;
    } else {
      assert size + bs == bs;
    }
  }

  lemma Layout(head: seq<byte>, specific: seq<byte>, tail: seq<byte>)
    ensures var bytes := head + (specific + tail);
            && bytes[..|head|] == head && bytes[|head|..|head| + |specific|] == specific
            && bytes[|head| + |specific|..] == tail
  {}

  lemma Regroup(head: seq<byte>, specific: seq<byte>, size: seq<byte>, sealed: seq<byte>, end: seq<byte>,
                rest: seq<byte>)
    ensures head + specific + size + sealed + end + rest == head + (specific + (size + (sealed + (end + rest))))
  {
    Assoc(head + specific + size + sealed, end, rest);
    Assoc(head + specific + size, sealed, end + rest);
    Assoc(head + specific, size, sealed + (end + rest));
    Assoc(head, specific, size + (sealed + (end + rest)));
  }

  lemma SerializedShape(ctx: Context, p: QPacket, rest: seq<byte>)
    requires Serialize(ctx, p).Ok?
    ensures var sealed := SealPayload(ctx, p).value;
            var size := SizeField(p, |sealed|).value;
            var checksum := Seal(ctx, p, DataBytes(ctx, p).value);
            var bytes := Serialize(ctx, p).value + rest;
            var k := SpecificSize(p.packetType);
            && |bytes| >= 10 + k && bytes[..10] == Head(p) && bytes[10..10 + k] == Specific(p).value
            && bytes[10 + k..] == size + (sealed + ([checksum] + rest))
            && |Serialize(ctx, p).value| == 10 + k + |size| + |sealed| + 1
  {
    hide SealPayload, SizeField, Specific, Head, Seal;
    var sealed := SealPayload(ctx, p).value;
    var size := SizeField(p, |sealed|).value;
    var end := [Seal(ctx, p, DataBytes(ctx, p).value)];
    Regroup(Head(p), Specific(p).value, size, sealed, end, rest);
    Layout(Head(p), Specific(p).value, size + (sealed + (end + rest)));
  }

  /** What every serialised packet is parsed to, also when its payload does not survive. */
  lemma ParseSerialized(ctx: Context, p: QPacket, rest: seq<byte>)
    requires Serialize(ctx, p).Ok? && (HasSize(p) || rest == [])
    ensures var bytes := Serialize(ctx, p).value;
            var arrived := OpenPayload(ctx, Secure(p), SealPayload(ctx, p).value);
            Parse(ctx, bytes + rest) ==
            if arrived.Err? then Err(arrived.error)
            else Ok((OnWire(ctx, p).(payload := arrived.value.0, useCompression := arrived.value.1), |bytes|))
  {
    hide SealPayload, OpenPayload, SizeField, Head, ParseHead, ParsePayload, WithSpecific;
    var checksum := Seal(ctx, p, DataBytes(ctx, p).value);
    SerializedShape(ctx, p, rest);
    HeadRoundTrip(p);
    var q := ParseHead(Head(p)).value;
    SpecificRoundTrip(p, q);
    ParsePayloadSealed(ctx, p, WithSpecific(q, Specific(p).value), checksum, rest);
  }

  /**
   * A packet with a size field, followed by anything, or one without at the end of a datagram, is
   * received as it was sent, all of it and no more, exactly when its payload is transparent.
   */
  lemma PacketRoundTrip(ctx: Context, p: QPacket, rest: seq<byte>)
    requires ZlibSound(ctx.zlib)
    requires Serialize(ctx, p).Ok? && (HasSize(p) || rest == [])
    ensures Parse(ctx, Serialize(ctx, p).value + rest) == Ok((OnWire(ctx, p), |Serialize(ctx, p).value|))
            <==> Transparent(ctx, p)
  {
    ParseSerialized(ctx, p, rest);
    ArrivalIsTransparent(ctx, p);
  }

  /** Every serialised packet carries the checksum its receiver computes. */
  lemma SerializedIsValid(ctx: Context, p: QPacket, rest: seq<byte>)
    requires Serialize(ctx, p).Ok? && (HasSize(p) || rest == [])
    requires Parse(ctx, Serialize(ctx, p).value + rest).Ok?
    ensures var (q, n) := Parse(ctx, Serialize(ctx, p).value + rest).value;
            ChecksumMatches(ctx, q, (Serialize(ctx, p).value + rest)[..n])
  {
    ParseSerialized(ctx, p, rest);
    var bytes := Serialize(ctx, p).value;
    assert (bytes + rest)[..|bytes|] == bytes;
    assert bytes[..|bytes| - 1] == DataBytes(ctx, p).value;
  }

  // ---- what the bytes say ----

  lemma KeysAgree(a: nat, b: nat, data: seq<byte>)
    ensures Checksum(a, data) == Checksum(b, data) <==> a % 256 == b % 256
  {
    var x := DigitSum(WordSum(data, |data| / 4), 4) + ByteSum(data[Aligned(data)..]);
    SameSum(x, a % 256, b % 256);
  }

  lemma SameSum(x: nat, a: nat, b: nat)
    requires a < 256 && b < 256
    ensures (x + a) % 256 == (x + b) % 256 <==> a == b
  {}

  /**
   * The last byte of a packet is the checksum of the others, keyed with the sum of the access key when
   * it goes to an RVSec port (stream type 3) and with 0 otherwise.
   */
  lemma LastByteIsChecksum(ctx: Context, p: QPacket)
    requires Serialize(ctx, p).Ok?
    ensures var bytes := Serialize(ctx, p).value;
            var key := if p.destination.streamType == 3 then ByteSum(ctx.accessKey) else 0;
            |bytes| > 10 && bytes[|bytes| - 1] == Checksum(key, bytes[..|bytes| - 1])
  {
    hide ByteSum, Checksum, ChecksumKey, Head, Specific, SealPayload, SizeField;
    var data := DataBytes(ctx, p).value;
    assert (data + [Seal(ctx, p, data)])[..|data|] == data;
    KeySays(ctx, p.destination.streamType, data);
  }

  /** So is what a receiver accepts. */
  lemma AcceptedWhen(ctx: Context, p: QPacket, raw: seq<byte>)
    requires raw != []
    ensures var key := if p.destination.streamType == 3 then ByteSum(ctx.accessKey) else 0;
            ChecksumMatches(ctx, p, raw) <==> p.checksum == Checksum(key, raw[..|raw| - 1])
  {
    hide Checksum, ByteSum, ChecksumKey;
    KeySays(ctx, p.destination.streamType, raw[..|raw| - 1]);
  }

  lemma KeySays(ctx: Context, streamType: StreamType, data: seq<byte>)
    ensures Checksum(ChecksumKey(ctx, streamType), data) ==
            Checksum(if streamType == 3 then ByteSum(ctx.accessKey) else 0, data)
  {
    hide Checksum, ByteSum;
    LowByte(ByteSum(ctx.accessKey));
    KeysAgree(ByteSum(ctx.accessKey) % 0x1_0000_0000, ByteSum(ctx.accessKey), data);
  }

  lemma LowByte(n: nat)
    ensures n % 0x1_0000_0000 % 256 == n % 256
  {
    assert n == 256 * (0x100_0000 * (n / 0x1_0000_0000)) + n % 0x1_0000_0000;
  }

  lemma ParsesAlike(ctx: Context, accessKey: seq<byte>, data: seq<byte>)
    ensures Parse(ctx.(accessKey := accessKey), data) == Parse(ctx, data)
  {
    hide OpenPayload, ParseHead;
    forall secure, raw ensures OpenPayload(ctx.(accessKey := accessKey), secure, raw) == OpenPayload(ctx, secure, raw) {
      OpensAlike(ctx, accessKey, secure, raw);
    }
  }

  lemma OpensAlike(ctx: Context, accessKey: seq<byte>, secure: bool, raw: seq<byte>)
    ensures OpenPayload(ctx.(accessKey := accessKey), secure, raw) == OpenPayload(ctx, secure, raw)
  {}

  /**
   * A server with another access key accepts a packet exactly when it does not go to an RVSec port, or
   * the bytes of the two keys have the same sum modulo 256.
   */
  lemma AccessKeysMatter(ctx: Context, accessKey: seq<byte>, p: QPacket)
    requires Serialize(ctx, p).Ok? && Parse(ctx, Serialize(ctx, p).value).Ok?
    ensures var other := ctx.(accessKey := accessKey);
            var bytes := Serialize(ctx, p).value;
            && Parse(other, bytes).Ok? && Parse(other, bytes).value.1 == |bytes|
            && (ChecksumMatches(other, Parse(other, bytes).value.0, bytes) <==>
                p.destination.streamType != 3 || ByteSum(accessKey) % 256 == ByteSum(ctx.accessKey) % 256)
  {
    hide Checksum, Serialize, Parse, OnWire, OpenPayload, SealPayload, ChecksumMatches;
    var bytes := Serialize(ctx, p).value;
    assert bytes + [] == bytes;
    ParseSerialized(ctx, p, []);
    ParsesAlike(ctx, accessKey, bytes);
    OnWireFields(ctx, p);
    LastByteIsChecksum(ctx, p);
    WireChecksum(ctx, p);
    AcceptedWhen(ctx.(accessKey := accessKey), Parse(ctx, bytes).value.0, bytes);
    KeysAgree(ByteSum(accessKey), ByteSum(ctx.accessKey), bytes[..|bytes| - 1]);
  }

  lemma OnWireFields(ctx: Context, p: QPacket)
    requires Serialize(ctx, p).Ok?
    ensures DataBytes(ctx, p).Ok? && OnWire(ctx, p).destination.streamType == p.destination.streamType
  {
    hide DataBytes, Seal;
  }

  lemma WireChecksum(ctx: Context, p: QPacket)
    requires Serialize(ctx, p).Ok?
    ensures DataBytes(ctx, p).Ok?
    ensures OnWire(ctx, p).checksum == Serialize(ctx, p).value[|Serialize(ctx, p).value| - 1]
  {
    hide DataBytes, Seal;
  }
}
