/** Dispatching RMC requests to protocol methods: one request, one response. */
module Dispatch {
  import opened Basics
  import Codecs
  import CodecErrors
  import CodecRoundTrip
  import CodecStreams
  import opened Rmc

  /** How a method's handler ends: with a value, with an RmcError, or with any other exception. */
  datatype Ending = Returned(value: Codecs.Value) | Refused(kind: RmcErrorKind) | Crashed

  /** A handler's answer, at once or through a promise. */
  datatype Answer = Now(ending: Ending) | Later(ending: Ending)

  datatype Method = Method(request: Codecs.Codec, response: Codecs.Codec, handler: Option<Codecs.Value -> Answer>)

  /** The methods of a registered protocol, by id. */
  type Methods = map<u32, Method>

  // ---- errors ----

  function ErrorCode(kind: RmcErrorKind): u32 {
    match kind
    case UnknownProtocol => 0x8001_0001
    case UnknownMethod => 0x8001_0001
    case UnimplementedMethod => 0x8001_0002
    case AccessDenied => 0x8001_0006
    case MissingData => 0x8001_0009
    case ParsingError => 0x8001_000a
    case InvalidPacketType => 0x8001_000a
    case InternalError => 0x8001_0012
  }

  function FromErrorCode(code: u32): Option<RmcErrorKind> {
    if code == 0x8001_0001 then Some(UnknownProtocol)
    else if code == 0x8001_0002 then Some(UnimplementedMethod)
    else if code == 0x8001_0006 then Some(AccessDenied)
    else if code == 0x8001_0009 then Some(MissingData)
    else if code == 0x8001_000a then Some(ParsingError)
    else if code == 0x8001_0012 then Some(InternalError)
    else None
  }

  /** The codes of all kinds, with bit 31 set; kinds that share one are told apart by no one. */
  lemma ErrorCodesSurvive(kind: RmcErrorKind)
    ensures ErrorCode(kind) == 0x8001_0001 <==> kind.UnknownProtocol? || kind.UnknownMethod?
    ensures ErrorCode(kind) == 0x8001_0002 <==> kind.UnimplementedMethod?
    ensures ErrorCode(kind) == 0x8001_0006 <==> kind.AccessDenied?
    ensures ErrorCode(kind) == 0x8001_0009 <==> kind.MissingData?
    ensures ErrorCode(kind) == 0x8001_000a <==> kind.ParsingError? || kind.InvalidPacketType?
    ensures ErrorCode(kind) == 0x8001_0012 <==> kind.InternalError?
    ensures FromErrorCode(ErrorCode(kind)).Some?
    ensures FromErrorCode(ErrorCode(kind)) == Some(kind) <==> kind != UnknownMethod && kind != InvalidPacketType
  {}

  /** A client takes nothing else for an error it knows. */
  lemma OnlyErrorCodes(code: u32)
    ensures FromErrorCode(code).Some? ==> ErrorCode(FromErrorCode(code).value) == code
  {}

  // ---- dispatch ----

  /** The error an exception becomes on its way to the client. */
  function Reported(e: Error): RmcErrorKind {
    if e.RmcError? then e.kind else InternalError
  }

  function Finish(method_: Method, ending: Ending): Result<seq<byte>> {
    match ending
    case Returned(v) => Codecs.Write(method_.response, v)
    case Refused(kind) => Err(RmcError(kind))
    case Crashed => Err(PlainError)
  }

  function Parameters(method_: Method, parameters: seq<byte>): Result<Codecs.Value> {
    match Codecs.Read(method_.request, parameters)
    case Ok((v, _)) => Ok(v)
    case Err(e) => if e == StreamError || e == RangeError then Err(RmcError(ParsingError)) else Err(e)
  }

  function Find(protocols: map<u32, Methods>, request: Request): Result<Method> {
    if request.protocolId !in protocols then Err(RmcError(UnknownProtocol))
    else if request.methodId !in protocols[request.protocolId] then Err(RmcError(UnknownMethod))
    else Ok(protocols[request.protocolId][request.methodId])
  }

  /** The handler's answer with its value serialised, or the exception that came first. */
  function Invoke(protocols: map<u32, Methods>, request: Request): Result<Answer> {
    var m :- Find(protocols, request);
    var v :- Parameters(m, request.parameters);
    if m.handler.None? then Err(RmcError(UnimplementedMethod)) else Ok(m.handler.value(v))
  }

  /** The response data, or the exception that takes its place. */
  function Data(protocols: map<u32, Methods>, request: Request): Result<seq<byte>> {
    var answer :- Invoke(protocols, request);
    Finish(Find(protocols, request).value, answer.ending)
  }

  function Fail(request: Request, e: Error): Result<seq<byte>> {
    EncodeResponse(Response(request.protocolId, Failure(ErrorCode(Reported(e)), request.callId)))
  }

  function Succeed(request: Request, data: seq<byte>): Result<seq<byte>> {
    EncodeResponse(Response(request.protocolId, Success(request.callId, request.methodId, data)))
  }

  /** An oversized response fails the call when it is made at once, and only drops it when it comes later. */
  function Respond(protocols: map<u32, Methods>, request: Request): Result<seq<byte>> {
    match Data(protocols, request)
    case Err(e) => Fail(request, e)
    case Ok(data) =>
      match Succeed(request, data)
      case Ok(bytes) => Ok(bytes)
      case Err(e) => if Invoke(protocols, request).value.Now? then Fail(request, e) else Err(e)
  }

  function Handle(protocols: map<u32, Methods>, data: seq<byte>): Result<seq<byte>> {
    var packet :- ParsePacket(data);
    if packet.IsResponse? then Err(RmcError(InvalidPacketType)) else Respond(protocols, packet.request)
  }

  // ---- properties ----

  lemma ParsedProtocolIds(data: seq<byte>)
    requires ParsePacket(data).Ok? && ParsePacket(data).value.IsRequest?
    ensures ParsePacket(data).value.request.protocolId <= 0xffff
  {
    Widths();
  }

  ghost predicate Registered(protocols: map<u32, Methods>) {
    forall p, m :: p in protocols && m in protocols[p] ==> m < 0x8000
  }

  /** The outcome a response to `request` carries. */
  predicate Carries(bytes: seq<byte>, request: Request, outcome: Outcome) {
    ParsePacket(bytes) == Ok(IsResponse(Response(request.protocolId, outcome)))
  }

  /** A response of this method with this data has at most 4 GiB. */
  predicate Fits(request: Request, data: seq<byte>) {
    (if request.protocolId < 0x7f then 1 else 3) + 9 + |data| < 0x1_0000_0000
  }

  /** What the outcome of a request has to be, by what becomes of it. */
  predicate Deserves(protocols: map<u32, Methods>, request: Request, outcome: Outcome) {
    var callId := request.callId;
    if request.protocolId !in protocols || request.methodId !in protocols[request.protocolId] then
      outcome == Failure(0x8001_0001, callId)
    else
      var m := protocols[request.protocolId][request.methodId];
      var parameters := Codecs.Read(m.request, request.parameters);
      if parameters.Err? then outcome == Failure(0x8001_000a, callId)
      else if m.handler.None? then outcome == Failure(0x8001_0002, callId)
      else
        var ending := m.handler.value(parameters.value.0).ending;
        if ending.Crashed? then outcome == Failure(0x8001_0012, callId)
        else if ending.Refused? then outcome == Failure(ErrorCode(ending.kind), callId)
        else
          var written := Codecs.Write(m.response, ending.value);
          if written.Err? || !Fits(request, written.value) then outcome == Failure(0x8001_0012, callId)
          else outcome == Success(callId, request.methodId, written.value)
  }

  /** `bytes` is a response to `request`, with the outcome it deserves. */
  ghost predicate Answers(protocols: map<u32, Methods>, request: Request, bytes: seq<byte>) {
    exists outcome :: Carries(bytes, request, outcome) && Deserves(protocols, request, outcome)
  }

  /** The one response that is not sent: it was promised, and its size does not fit. */
  predicate Lost(protocols: map<u32, Methods>, request: Request) {
    && request.protocolId in protocols && request.methodId in protocols[request.protocolId]
    && var m := protocols[request.protocolId][request.methodId];
    && var parameters := Codecs.Read(m.request, request.parameters);
    && parameters.Ok? && m.handler.Some?
    && var answer := m.handler.value(parameters.value.0);
    && answer.Later? && answer.ending.Returned?
    && Codecs.Write(m.response, answer.ending.value).Ok?
    && !Fits(request, Codecs.Write(m.response, answer.ending.value).value)
  }

  // ---- every request is answered ----

  lemma FailureFits(r: Response)
    requires r.outcome.Failure?
    ensures EncodeResponse(r).Ok?
  {
    assert |ResponseProtocol(r.protocolId)| <= 3;
  }

  function CodeOf(e: Error): u32 {
    if e.RmcError? then ErrorCode(e.kind) else 0x8001_0012
  }

  lemma FailCarries(request: Request, e: Error)
    requires request.protocolId <= 0xffff
    ensures Fail(request, e).Ok?
    ensures Carries(Fail(request, e).value, request, Failure(CodeOf(e), request.callId))
  {
    hide ParsePacket, EncodeResponse;
    FailureFits(Response(request.protocolId, Failure(ErrorCode(Reported(e)), request.callId)));
    ResponseRoundTrip(Response(request.protocolId, Failure(ErrorCode(Reported(e)), request.callId)));
  }

  lemma SmallIdSurvives(methodId: u32)
    requires methodId < 0x8000
    ensures !Bit15(Unsigned32(methodId))
  {}

  lemma SucceedCarries(request: Request, data: seq<byte>)
    requires request.protocolId <= 0xffff && request.methodId < 0x8000
    ensures Succeed(request, data) == Err(RangeError) || Succeed(request, data).Ok?
    ensures Succeed(request, data).Ok? <==> Fits(request, data)
    ensures Fits(request, data) ==>
              Carries(Succeed(request, data).value, request, Success(request.callId, request.methodId, data))
  {
    hide ParsePacket, Bit15, Le;
    SmallIdSurvives(request.methodId);
    if Succeed(request, data).Ok? {
      ResponseRoundTrip(Response(request.protocolId, Success(request.callId, request.methodId, data)));
    }
  }

  lemma AnswersWith(protocols: map<u32, Methods>, request: Request, bytes: seq<byte>, outcome: Outcome)
    requires Carries(bytes, request, outcome) && Deserves(protocols, request, outcome)
    ensures Answers(protocols, request, bytes)
  {}

  /** When no data comes about, the response carries the code of what prevented it. */
  lemma FailureIsAnswered(protocols: map<u32, Methods>, request: Request)
    requires request.protocolId <= 0xffff && Data(protocols, request).Err?
    ensures Respond(protocols, request).Ok? && Answers(protocols, request, Respond(protocols, request).value)
    ensures !Lost(protocols, request)
  {
    hide ParsePacket, Fail, Succeed, Codecs.Read, Codecs.Write, Carries, Answers, Fits;
    var e := Data(protocols, request).error;
    FailCarries(request, e);
    if request.protocolId in protocols && request.methodId in protocols[request.protocolId] {
      var m := protocols[request.protocolId][request.methodId];
      CodecErrors.ReadFails(m.request, request.parameters);
      var answer := Invoke(protocols, request);
      if answer.Ok? && answer.value.ending.Returned? {
        CodecErrors.WriteFails(m.response, answer.value.ending.value);
      }
    }
    AnswersWith(protocols, request, Fail(request, e).value, Failure(CodeOf(e), request.callId));
  }

  lemma SuccessIsAnswered(protocols: map<u32, Methods>, request: Request)
    requires Registered(protocols) && request.protocolId <= 0xffff && Data(protocols, request).Ok?
    ensures Respond(protocols, request).Err? <==> Lost(protocols, request)
    ensures Respond(protocols, request).Ok? ==> Answers(protocols, request, Respond(protocols, request).value)
  {
    hide ParsePacket, Fail, Succeed, Codecs.Read, Codecs.Write, Carries, Answers, Fits;
    var data := Data(protocols, request).value;
    SucceedCarries(request, data);
    if Fits(request, data) {
      AnswersWith(protocols, request, Succeed(request, data).value,
                  Success(request.callId, request.methodId, data));
    } else {
      FailCarries(request, RangeError);
      AnswersWith(protocols, request, Fail(request, RangeError).value, Failure(0x8001_0012, request.callId));
    }
  }

  /**
   * Every request that parses gets one response, whatever its handler does: the client reads from it
   * the protocol and the call it asked for and the outcome the request deserves, its data or the code
   * of what prevented it. Only a promised response of 4 GiB or more is lost.
   */
  lemma EveryRequestIsAnswered(protocols: map<u32, Methods>, bytes: seq<byte>, request: Request)
    requires Registered(protocols)
    requires ParsePacket(bytes) == Ok(IsRequest(request))
    ensures Handle(protocols, bytes).Err? <==> Lost(protocols, request)
    ensures Handle(protocols, bytes).Ok? ==> Answers(protocols, request, Handle(protocols, bytes).value)
  {
    hide ParsePacket, Answers, Respond, Data, Lost;
    ParsedProtocolIds(bytes);
    if Data(protocols, request).Ok? {
      SuccessIsAnswered(protocols, request);
    } else {
      FailureIsAnswered(protocols, request);
    }
  }

  /** A response, or anything that does not parse, is not answered at all. */
  lemma OthersAreRefused(protocols: map<u32, Methods>, bytes: seq<byte>)
    requires !(ParsePacket(bytes).Ok? && ParsePacket(bytes).value.IsRequest?)
    ensures Handle(protocols, bytes).Err?
  {}

  /** A client that encodes its parameters and decodes the data with the method's codecs calls the handler. */
  lemma CallRoundTrip(protocols: map<u32, Methods>, request: Request, method_: Method,
                      v: Codecs.Value, result: Codecs.Value)
    requires Find(protocols, request) == Ok(method_) && method_.handler.Some?
    requires Codecs.WellFormed(method_.request) && Codecs.WellFormed(method_.response)
    requires Codecs.Write(method_.request, v) == Ok(request.parameters)
    requires Codecs.Sendable(method_.request, v) && Codecs.NulFree(method_.request, v)
    requires method_.handler.value(v).ending == Returned(result)
    requires Codecs.Sendable(method_.response, result) && Codecs.NulFree(method_.response, result)
    requires Codecs.Write(method_.response, result).Ok?
    ensures Data(protocols, request).Ok?
    ensures Codecs.Read(method_.response, Data(protocols, request).value) == Ok((result, []))
  {
    CodecRoundTrip.RoundTrip(method_.request, v, []);
    assert request.parameters + [] == request.parameters;
    CodecRoundTrip.RoundTrip(method_.response, result, []);
    var data := Codecs.Write(method_.response, result).value;
    assert data + [] == data;
  }

  /** A message is a request to this protocol. */
  predicate IsFor(bytes: seq<byte>, id: u32) {
    ParsePacket(bytes).Ok? && ParsePacket(bytes).value.IsRequest? && ParsePacket(bytes).value.request.protocolId == id
  }

  /**
   * Registering a protocol decides how requests to it are answered, whatever was registered under its
   * id before, and changes no other answer.
   */
  lemma RegistrationIsLocal(protocols: map<u32, Methods>, id: u32, methods: Methods, bytes: seq<byte>)
    ensures Handle(protocols[id := methods], bytes) ==
            if IsFor(bytes, id) then Handle(map[id := methods], bytes) else Handle(protocols, bytes)
  {
    hide ParsePacket, Parameters, Finish, Succeed, Fail;
  }

  // ---- the dispatcher ----

  class RmcDispatcher {
    var protocols: map<u32, Methods>

    constructor ()
      ensures protocols == map[]
    {
      protocols := map[];
    }

    /** A protocol registered again replaces the earlier one; RegistrationIsLocal says what that means. */
    method Register(id: u32, methods: Methods)
      modifies this
      ensures protocols == old(protocols)[id := methods]
    {
      protocols := protocols[id := methods];
    }

    method HandleCall(data: seq<byte>) returns (r: Result<seq<byte>>)
      ensures r == Handle(protocols, data)
    {
      hide Succeed, Fail, Codecs.Read, Codecs.Write, ParsePacket;
      var packet :- ParseRmcPacket(data);
      if packet.IsResponse? {
        return Err(RmcError(InvalidPacketType));
      }
      var request := packet.request;
      if request.protocolId !in protocols {
        return Fail(request, RmcError(UnknownProtocol));
      }
      var methods := protocols[request.protocolId];
      if request.methodId !in methods {
        return Fail(request, RmcError(UnknownMethod));
      }
      var entry := methods[request.methodId];
      var params := CodecStreams.Decode(entry.request, request.parameters);
      if params.Err? {
        var e := if params.error == StreamError || params.error == RangeError then RmcError(ParsingError)
                 else params.error;
        return Fail(request, e);
      }
      if entry.handler.None? {
        return Fail(request, RmcError(UnimplementedMethod));
      }
      r := Settle(request, entry, entry.handler.value(params.value));
    }

    /** Serialises a handler's answer, when it is there. */
    method Settle(request: Request, entry: Method, answer: Answer) returns (r: Result<seq<byte>>)
      ensures r == match Finish(entry, answer.ending)
                   case Err(e) => Fail(request, e)
                   case Ok(data) =>
                     match Succeed(request, data)
                     case Ok(bytes) => Ok(bytes)
                     case Err(e) => if answer.Now? then Fail(request, e) else Err(e)
    {
      hide Succeed, Fail, Codecs.Write;
      var data: Result<seq<byte>>;
      match answer.ending {
        case Returned(v) => data := CodecStreams.Encode(entry.response, v);
        case Refused(kind) => data := Err(RmcError(kind));
        case Crashed => data := Err(PlainError);
      }
      if data.Err? {
        return Fail(request, data.error);
      }
      r := Succeed(request, data.value);
      if r.Err? && answer.Now? {
        r := Fail(request, r.error);
      }
    }
  }
}
