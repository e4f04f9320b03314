/** RMC requests and responses: framing, parsing and what survives. */
module Rmc {
  import opened Basics
  import opened Streams

  datatype Request = Request(protocolId: u32, callId: u32, methodId: u32, parameters: seq<byte>)

  /** The method id of a parsed response is a signed 32-bit number. */
  datatype Outcome =
    | Success(callId: u32, methodId: int, data: seq<byte>)
    | Failure(errorCode: u32, callId: u32)

  datatype Response = Response(protocolId: u32, outcome: Outcome)

  datatype Packet = IsRequest(request: Request) | IsResponse(response: Response)

  // ---- bit operations on 32-bit numbers ----

  predicate Bit15(n: u32) {
    n / 0x8000 % 2 == 1
  }

  function SetBit15(n: u32): (m: u32) {
    if Bit15(n) then n else n + 0x8000
  }

  function ClearBit15(n: u32): (m: u32) {
    if Bit15(n) then n - 0x8000 else n
  }

  function Unsigned32(n: int): u32 {
    n % 0x1_0000_0000
  }

  function Signed32(n: u32): int {
    if n < 0x8000_0000 then n else n - 0x1_0000_0000
  }

  // ---- encoding ----

  function WithSize(body: seq<byte>): Result<seq<byte>> {
    if |body| < 0x1_0000_0000 then Ok(Le(|body|, 4) + body) else Err(RangeError)
  }

  function RequestProtocol(id: u32): seq<byte> {
    if id < 0xff then [if id < 0x80 then id + 0x80 else id] else [0xff, id % 256, id / 256 % 256]
  }

  function ResponseProtocol(id: u32): seq<byte> {
    if id < 0x7f then [id] else [0x7f, id % 256, id / 256 % 256]
  }

  function EncodeRequest(r: Request): Result<seq<byte>> {
    WithSize(RequestProtocol(r.protocolId) + (Le(r.callId, 4) + (Le(r.methodId, 4) + r.parameters)))
  }

  function OutcomeBytes(o: Outcome): seq<byte> {
    match o
    case Success(callId, methodId, data) =>
      [1] + (Le(callId, 4) + (Le(SetBit15(Unsigned32(methodId)), 4) + data))
    case Failure(errorCode, callId) => [0] + (Le(errorCode, 4) + (Le(callId, 4) + []))
  }

  function EncodeResponse(r: Response): Result<seq<byte>> {
    WithSize(ResponseProtocol(r.protocolId) + OutcomeBytes(r.outcome))
  }

  // ---- parsing ----

  function ReadRequestProtocol(bs: seq<byte>): (r: Result<(u32, seq<byte>)>) {
    Widths();
    var (first, rest) :- ReadUnsigned(bs, 1);
    if first == 0xff then ReadUnsigned(rest, 2) else Ok((first % 0x80, rest))
  }

  function ReadResponseProtocol(bs: seq<byte>): (r: Result<(u32, seq<byte>)>) {
    Widths();
    var (first, rest) :- ReadUnsigned(bs, 1);
    if first == 0x7f then ReadUnsigned(rest, 2) else Ok((first, rest))
  }

  function ParseRequest(data: seq<byte>): Result<Request> {
    Widths();
    var (size, body) :- ReadUnsigned(data, 4);
    if size < |data| - 4 then Err(RmcError(MissingData)) else
    var (protocolId, rest1) :- ReadRequestProtocol(body);
    var (callId, rest2) :- ReadUnsigned(rest1, 4);
    var (methodId, parameters) :- ReadUnsigned(rest2, 4);
    Ok(Request(protocolId, callId, methodId, parameters))
  }

  function ReadOutcome(bs: seq<byte>): Result<Outcome> {
    Widths();
    var (status, rest1) :- ReadUnsigned(bs, 1);
    if status > 1 then Err(RmcError(InvalidPacketType)) else
    var (a, rest2) :- ReadUnsigned(rest1, 4);
    var (b, rest3) :- ReadUnsigned(rest2, 4);
    Ok(if status == 1 then Success(a, Signed32(ClearBit15(b)), rest3) else Failure(a, b))
  }

  function ParseResponse(data: seq<byte>): Result<Response> {
    var (_, body) :- ReadUnsigned(data, 4);
    var (protocolId, rest) :- ReadResponseProtocol(body);
    var outcome :- ReadOutcome(rest);
    Ok(Response(protocolId, outcome))
  }

  function Rethrown(e: Error): Error {
    if e == StreamError then RmcError(ParsingError) else e
  }

  function ParsePacket(data: seq<byte>): Result<Packet> {
    if |data| < 5 then Err(RmcError(MissingData))
    else if data[4] >= 0x80 then
      match ParseRequest(data)
      case Ok(r) => Ok(IsRequest(r))
      case Err(e) => Err(Rethrown(e))
    else
      match ParseResponse(data)
      case Ok(r) => Ok(IsResponse(r))
      case Err(e) => Err(Rethrown(e))
  }

  // ---- what survives ----

  lemma ReadByte(b: byte, rest: seq<byte>)
    ensures ReadUnsigned([b] + rest, 1) == Ok((b, rest))
  {
    Le1(b);
    ReadLe(b, 1, rest);
  }

  lemma ReadPair(lo: byte, hi: byte, rest: seq<byte>)
    ensures ReadUnsigned([lo, hi] + rest, 2) == Ok((lo + 256 * hi, rest))
  {
    TakeAppend([lo, hi], rest);
    assert [lo, hi][1..] == [hi] && [hi][1..] == [];
    assert FromLe([hi]) == hi;
  }

  lemma ReadWithSize(body: seq<byte>)
    requires WithSize(body).Ok?
    ensures ReadUnsigned(WithSize(body).value, 4) == Ok((|body|, body))
    ensures body != [] ==> |WithSize(body).value| >= 5 && WithSize(body).value[4] == body[0]
  {
    Widths();
    ReadLe(|body|, 4, body);
  }

  /** Protocol ids as a request carries them: 7 bits, or 16 bits behind 0xff. */
  predicate RequestIdSurvives(id: u32) {
    id < 0x7f || 0xff <= id <= 0xffff
  }

  lemma RequestProtocolRead(id: u32, rest: seq<byte>)
    ensures id != 0x7f ==>
              ReadRequestProtocol(RequestProtocol(id) + rest) ==
              Ok((if id < 0xff then id % 0x80 else id % 0x1_0000, rest))
    ensures id == 0x7f ==>
              ReadRequestProtocol(RequestProtocol(id) + rest) == ReadUnsigned(rest, 2)
  {
    if id < 0xff {
      ReadByte(if id < 0x80 then id + 0x80 else id, rest);
    } else {
      var lo, hi := id % 256, id / 256 % 256;
      assert RequestProtocol(id) + rest == [0xff] + ([lo, hi] + rest);
      ReadByte(0xff, [lo, hi] + rest);
      ReadPair(lo, hi, rest);
      assert lo + 256 * hi == id % 0x1_0000;
    }
  }

  lemma ResponseProtocolRead(id: u32, rest: seq<byte>)
    ensures ReadResponseProtocol(ResponseProtocol(id) + rest) ==
            Ok((if id < 0x7f then id else id % 0x1_0000, rest))
  {
    if id < 0x7f {
      ReadByte(id, rest);
    } else {
      var lo, hi := id % 256, id / 256 % 256;
      assert ResponseProtocol(id) + rest == [0x7f] + ([lo, hi] + rest);
      ReadByte(0x7f, [lo, hi] + rest);
      ReadPair(lo, hi, rest);
      assert lo + 256 * hi == id % 0x1_0000;
    }
  }

  lemma RequestTail(callId: u32, methodId: u32, parameters: seq<byte>)
    ensures var rest2 := Le(methodId, 4) + parameters;
            && ReadUnsigned(Le(callId, 4) + rest2, 4) == Ok((callId, rest2))
            && ReadUnsigned(rest2, 4) == Ok((methodId, parameters))
  {
    Widths();
    ReadLe(callId, 4, Le(methodId, 4) + parameters);
    ReadLe(methodId, 4, parameters);
  }

  /** Two bytes too many taken for the protocol id leave two too few for the parameters. */
  lemma ShiftedRequest(r: Request)
    requires r.protocolId == 0x7f && EncodeRequest(r).Ok? && ParseRequest(EncodeRequest(r).value).Ok?
    ensures |ParseRequest(EncodeRequest(r).value).value.parameters| == |r.parameters| - 2
  {
    var tail := Le(r.callId, 4) + (Le(r.methodId, 4) + r.parameters);
    ReadWithSize(RequestProtocol(r.protocolId) + tail);
    RequestProtocolRead(r.protocolId, tail);
  }

  lemma ParseEncodedRequest(r: Request)
    requires EncodeRequest(r).Ok?
    ensures r.protocolId != 0x7f ==>
              ParseRequest(EncodeRequest(r).value) ==
              Ok(r.(protocolId := if r.protocolId < 0xff then r.protocolId % 0x80 else r.protocolId % 0x1_0000))
  {
    hide ReadUnsigned, Le, ReadRequestProtocol, RequestProtocol;
    var tail := Le(r.callId, 4) + (Le(r.methodId, 4) + r.parameters);
    ReadWithSize(RequestProtocol(r.protocolId) + tail);
    RequestProtocolRead(r.protocolId, tail);
    RequestTail(r.callId, r.methodId, r.parameters);
  }

  /** A request is read back exactly when its protocol id avoids 0x7f..0xfe and fits 16 bits. */
  lemma RequestRoundTrip(r: Request)
    requires EncodeRequest(r).Ok?
    ensures ParsePacket(EncodeRequest(r).value) == Ok(IsRequest(r)) <==> RequestIdSurvives(r.protocolId)
  {
    hide Le, ParseRequest;
    var tail := Le(r.callId, 4) + (Le(r.methodId, 4) + r.parameters);
    ReadWithSize(RequestProtocol(r.protocolId) + tail);
    ParseEncodedRequest(r);
    if r.protocolId == 0x7f && ParseRequest(EncodeRequest(r).value).Ok? {
      ShiftedRequest(r);
    }
  }

  /** What of a response is read back: 16 bits of protocol id, and a signed 32-bit method id without bit 15. */
  predicate ResponseSurvives(r: Response) {
    && r.protocolId <= 0xffff
    && (r.outcome.Success? ==>
          -0x8000_0000 <= r.outcome.methodId < 0x8000_0000 && !Bit15(Unsigned32(r.outcome.methodId)))
  }

  lemma MethodIdSurvives(m: int)
    ensures Signed32(ClearBit15(SetBit15(Unsigned32(m)))) == m <==>
            -0x8000_0000 <= m < 0x8000_0000 && !Bit15(Unsigned32(m))
  {}

  /** An outcome as its receiver sees it. */
  function Reread(o: Outcome): Outcome {
    if o.Success? then o.(methodId := Signed32(ClearBit15(SetBit15(Unsigned32(o.methodId))))) else o
  }

  lemma ReadOutcomeBytes(o: Outcome)
    ensures ReadOutcome(OutcomeBytes(o)) == Ok(Reread(o))
  {
    hide ReadUnsigned, Le, Bit15, Unsigned32, Signed32;
    match o
    case Success(callId, methodId, data) =>
      var m := SetBit15(Unsigned32(methodId));
      ReadByte(1, Le(callId, 4) + (Le(m, 4) + data));
      RequestTail(callId, m, data);
    case Failure(errorCode, callId) =>
      ReadByte(0, Le(errorCode, 4) + (Le(callId, 4) + []));
      RequestTail(errorCode, callId, []);
  }

  lemma ParseEncodedResponse(r: Response)
    requires EncodeResponse(r).Ok?
    ensures var id: u32 := if r.protocolId < 0x7f then r.protocolId else r.protocolId % 0x1_0000;
            ParsePacket(EncodeResponse(r).value) == Ok(IsResponse(Response(id, Reread(r.outcome))))
  {
    hide ReadUnsigned, ReadOutcome, OutcomeBytes, ReadResponseProtocol, Reread;
    ReadWithSize(ResponseProtocol(r.protocolId) + OutcomeBytes(r.outcome));
    ResponseProtocolRead(r.protocolId, OutcomeBytes(r.outcome));
    ReadOutcomeBytes(r.outcome);
  }

  /** A response is read back exactly when its ids survive. */
  lemma ResponseRoundTrip(r: Response)
    requires EncodeResponse(r).Ok?
    ensures ParsePacket(EncodeResponse(r).value) == Ok(IsResponse(r)) <==> ResponseSurvives(r)
  {
    hide ParsePacket, EncodeResponse, Bit15, Unsigned32, Signed32, SetBit15, ClearBit15;
    ParseEncodedResponse(r);
    if r.outcome.Success? {
      MethodIdSurvives(r.outcome.methodId);
    }
  }

  /** A message is never taken for the other kind. */
  lemma KindsAreTold(q: Request, r: Response)
    ensures EncodeRequest(q).Ok? && ParsePacket(EncodeRequest(q).value).Ok? ==>
              ParsePacket(EncodeRequest(q).value).value.IsRequest?
    ensures EncodeResponse(r).Ok? ==>
              ParsePacket(EncodeResponse(r).value).Ok? && ParsePacket(EncodeResponse(r).value).value.IsResponse?
  {
    if EncodeRequest(q).Ok? {
      ReadWithSize(RequestProtocol(q.protocolId) + (Le(q.callId, 4) + (Le(q.methodId, 4) + q.parameters)));
    }
    if EncodeResponse(r).Ok? {
      ParseEncodedResponse(r);
    }
  }

  // ---- the parser on a stream, the printer in place ----

  /** A protocol id: one byte, or two behind the escape byte. */
  method TakeProtocol(s: ReadStream, escape: byte) returns (r: Result<u32>)
    requires s.Valid() && (escape == 0xff || escape == 0x7f)
    modifies s
    ensures s.Valid()
    ensures (if escape == 0xff then ReadRequestProtocol(old(s.Rest())) else ReadResponseProtocol(old(s.Rest()))) ==
            if r.Ok? then Ok((r.value, s.Rest())) else Err(r.error)
  {
    Widths();
    var id :- s.Unsigned(1);
    if id == escape {
      r := s.Unsigned(2);
    } else {
      r := Ok(if escape == 0xff then id % 0x80 else id);
    }
  }

  method TakeOutcome(s: ReadStream) returns (r: Result<Outcome>)
    requires s.Valid()
    modifies s
    ensures r == ReadOutcome(old(s.Rest()))
  {
    Widths();
    var status :- s.Unsigned(1);
    if status == 1 {
      var callId :- s.Unsigned(4);
      var methodId :- s.Unsigned(4);
      var rest := s.Remainder();
      return Ok(Success(callId, Signed32(ClearBit15(methodId)), rest));
    }
    if status == 0 {
      var errorCode :- s.Unsigned(4);
      var callId :- s.Unsigned(4);
      return Ok(Failure(errorCode, callId));
    }
    r := Err(RmcError(InvalidPacketType));
  }

  method ParseRmcRequest(data: seq<byte>) returns (r: Result<Request>)
    ensures r == ParseRequest(data)
  {
    hide ReadUnsigned, ReadRequestProtocol, ReadResponseProtocol;
    Widths();
    var s := new ReadStream(data);
    var size :- s.Unsigned(4);
    if size < |data| - 4 {
      return Err(RmcError(MissingData));
    }
    var protocolId :- TakeProtocol(s, 0xff);
    var callId :- s.Unsigned(4);
    var methodId :- s.Unsigned(4);
    var parameters := s.Remainder();
    r := Ok(Request(protocolId, callId, methodId, parameters));
  }

  method ParseRmcResponse(data: seq<byte>) returns (r: Result<Response>)
    ensures r == ParseResponse(data)
  {
    hide ReadUnsigned, ReadRequestProtocol, ReadResponseProtocol, ReadOutcome;
    var s := new ReadStream(data);
    var _ :- s.Unsigned(4);
    var protocolId :- TakeProtocol(s, 0x7f);
    var outcome :- TakeOutcome(s);
    r := Ok(Response(protocolId, outcome));
  }

  method ParseRmcPacket(data: seq<byte>) returns (r: Result<Packet>)
    ensures r == ParsePacket(data)
  {
    if |data| < 5 {
      return Err(RmcError(MissingData));
    }
    if data[4] >= 0x80 {
      var request := ParseRmcRequest(data);
      return if request.Ok? then Ok(IsRequest(request.value)) else Err(Rethrown(request.error));
    }
    var response := ParseRmcResponse(data);
    r := if response.Ok? then Ok(IsResponse(response.value)) else Err(Rethrown(response.error));
  }

  method PutLe(a: array<byte>, at: nat, n: nat, width: nat)
    requires at + width <= a.Length
    modifies a
    ensures a[..] == old(a[..at]) + Le(n, width) + old(a[at + width..])
  {
    forall i | 0 <= i < width {
      a[at + i] := Le(n, width)[i];
    }
  }

  method EncodeRmcRequest(request: Request) returns (r: Result<seq<byte>>)
    ensures r == EncodeRequest(request)
  {
    hide Le;
    var ids := new byte[8];
    PutLe(ids, 0, request.callId, 4);
    PutLe(ids, 4, request.methodId, 4);
    assert ids[..] + request.parameters == Le(request.callId, 4) + (Le(request.methodId, 4) + request.parameters);
    Assoc(RequestProtocol(request.protocolId), ids[..], request.parameters);
    r := WithSize(RequestProtocol(request.protocolId) + ids[..] + request.parameters);
  }

  method EncodeRmcResponse(response: Response) returns (r: Result<seq<byte>>)
    ensures r == EncodeResponse(response)
  {
    hide Le, Bit15, Unsigned32;
    var protocol := ResponseProtocol(response.protocolId);
    var body := new byte[9];
    match response.outcome
    case Success(callId, methodId, data) =>
      var flagged: u32 := SetBit15(Unsigned32(methodId));
      body[0] := 1;
      PutLe(body, 1, callId, 4);
      PutLe(body, 5, flagged, 4);
      assert body[..] + data == [1] + (Le(callId, 4) + (Le(flagged, 4) + data));
      Assoc(protocol, body[..], data);
      r := WithSize(protocol + body[..] + data);
    case Failure(errorCode, callId) =>
      body[0] := 0;
      PutLe(body, 1, errorCode, 4);
      PutLe(body, 5, callId, 4);
      assert body[..] == [0] + (Le(errorCode, 4) + (Le(callId, 4) + []));
      r := WithSize(protocol + body[..]);
  }
}
