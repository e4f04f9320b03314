# The Quazal PRUDP/RMC stack, verified

A Dafny model of the server stack in `bun-impl`: the reliable UDP transport with its handshake, fragmentation and
client registry, the packet format with its encryption, compression and checksum, the codec combinators, the RMC
messages and their dispatch, Kerberos-like tickets, and the class ordering of the protocol generator. The layers
compose: the last result follows a remote call from the client's fragments through the dispatcher to the response the
client reads off its datagrams.

`dafny verify dfyconfig.toml` checks everything.

## How it is built

- **Bytes up.** `Basics`, `Streams`, `Text`, `OrderedMap`: little-endian numbers, read and write streams over buffers,
  UTF-8 and decimal text, JavaScript maps with their insertion order.
- **Wire.** `Rc4`, `Checksums`, `Packets`, `Datagrams`: the cipher over its array, the wrapping checksum, one packet,
  several packets in a datagram.
- **Values and messages.** `Codecs` is a language of codecs and values with `Write` and `Read`; `CodecRoundTrip` and
  `CodecCanonical` are its two halves, `CodecStreams` the same loops on mutable streams, `CodecErrors` says what they
  throw. `StationUrls`, `Rmc`, `Dispatch`.
- **Formats.** `WireFormat` says of packets, messages, tickets and values which byte stands where, without the functions
  that write and read them; `KnownAnswers` has the test vectors of the repository.
- **Tickets.** `Kerberos`: the bounded key cache, sealed and encrypted tickets.
- **Server.** `Server` is the transport as a state and its steps: one packet, the end of an asynchronous handler, a
  request of the server's own, a login, a tick of the timer. `PrudpServer` is the server as it runs, with shared mutable
  `ClientInfo` objects, maps and loops; each method's contract says which step of `Server` it takes, and `HandleDatagram`
  takes a whole run of them. `Frames` says field by field what each handler changes; `Registry`, `Runs`, `Phases`,
  `Liveness`, `Addressing`, `ResponseStream`, `ResponseLimits`, `Reassembly`, `Handshake` and `Calls` prove what holds of
  all runs.
- **Generator.** `ClassOrder`: the depth-first sort of class declarations.

What the program takes from outside is a parameter: the clock, random signatures and sessions and the handlers are in
`Env`, zlib, secretbox, MD5 and HMAC are functions of which only the facts in `ZlibSound`, `BoxSound` and `HashesSound`
are used. The first two come with a witness that they can hold.

Conditions that the results need, and where they come from:

- Random signatures are fresh (`Fresh`) and at most 2^32 tickets are accepted (`accepted <= WRAP`): the tables are keyed by
  signature and by a wrapping connection id, and nothing in the program checks for collisions.
- The streams that carry remote calls are RVSec (`SecurePorts`, `SecureCall`). On every other stream the byte in front of
  a payload is written but not removed again (`Packets.PacketRoundTrip` says exactly which packets survive).
- The cipher key has 1 to 256 bytes (`Rc4.ValidKey`); with any other every serialisation on a secure stream throws.
- Responses are at most 256,000 bytes. `ResponseLimits.ResponseLimit` proves that this is the exact limit.
- Clients number fragments 1, 2, ... and end with 0; the server numbers down to 0 and its receiver joins in arrival order.
  `Reassembly` is about the first, `ResponseStream` about the second.

## Model

| member | source | states |
|---|---|---|
| Rc4.SchedulePermutes | bun-impl/src/quazal/rc4.ts:11-18 | for every key, after any number of turns of the key schedule the state array is a permutation of 0..255 |
| Rc4.KeyBytesMatter | bun-impl/src/quazal/rc4.ts:13-18 | keys that first differ in one byte go through the same rounds up to there, and then to indices that differ by exactly the difference of the bytes, so to different states |
| Rc4.IndexIsSum | bun-impl/src/quazal/rc4.ts:13-18 | as long as no round has moved an entry that a later one reads, the index of the schedule is the sum of the round numbers and of the key bytes, the key being repeated, modulo 256, and the entry it points to is the one of its round |
| Rc4.ApplyPermutes | bun-impl/src/quazal/rc4.ts:21-35 | the state array stays a permutation under any amount of encrypted data |
| Rc4.AdvanceInjective | bun-impl/src/quazal/rc4.ts:21-26 | a step of the generator loses nothing: different states never step to the same one |
| Rc4.SecondByteShows | bun-impl/src/quazal/rc4.ts:7-41 | a known bias of the cipher: when its 256 rounds leave 0 in place 2 and not 2 in place 1, the second byte of any data passes unencrypted |
| Rc4.ApplyConcat | bun-impl/src/quazal/rc4.ts:29-35 | one generator applied to two pieces of data gives the same bytes and the same final state as applied to their concatenation |
| Rc4.CryptCancel | bun-impl/src/quazal/rc4.ts:39-41 | decryption is encryption with the same key: for every key of 1 to 256 bytes, applying it twice gives the data back; other keys throw |
| Rc4.Generator.constructor | bun-impl/src/quazal/rc4.ts:7-19 | the in-place key schedule over the array computes the schedule the results above are about, which reads every byte of the key |
| Rc4.Generator.Next | bun-impl/src/quazal/rc4.ts:21-26 | swapping in place steps the state once and returns its output byte |
| Rc4.Generator.ApplyTo | bun-impl/src/quazal/rc4.ts:29-35 | a new buffer with the encrypted data, and the state behind it |
| Rc4.CryptKey | bun-impl/src/quazal/rc4.ts:39-41 | a fresh generator for each call, keyed as the results above say; a key of the wrong length throws |
| Checksums.DigitSumWraps | bun-impl/src/quazal/prudp/packet.ts:264-268 | wrapping the word sum at 2^32 leaves its four base-256 digits as they are, so folding the wrapped sum is folding the unbounded one |
| Checksums.SumWords | bun-impl/src/quazal/prudp/packet.ts:264-267 | the wrapping loop computes the unbounded sum of the words modulo 2^32 |
| Checksums.CalcChecksum | bun-impl/src/quazal/prudp/packet.ts:261-273 | the byte-wise fold with its tail loop is the checksum the results below are about |
| KnownAnswers.ChecksumOfWord | bun-impl/src/quazal/prudp/packet.test.ts:126 | the checksum of a word and a trailing byte |
| KnownAnswers.ChecksumOfOnes | bun-impl/src/quazal/prudp/packet.test.ts:127 | a checksum with a key and a word sum that wraps |
| Checksums.RaisedByte | bun-impl/src/quazal/prudp/packet.ts:261-273 | exactly when a raised byte goes unnoticed: if and only if it lies in a word and the carries it causes bring the change of the digit sum to 256 |
| Checksums.SingleByteErrorDetected | bun-impl/src/quazal/prudp/packet.ts:261-273 | changing any one covered byte by at most 252, so flipping any single bit, always changes the checksum |
| Checksums.BoundIsTight | bun-impl/src/quazal/prudp/packet.ts:261-273 | a change by 253 that goes unnoticed |
| Streams.ReadStream.Bytes | bun-impl/src/quazal/stream.ts:24-31 | takes the next bytes or throws without moving |
| Streams.WriteStream.Reserve | bun-impl/src/quazal/stream.ts:88-98 | growth keeps everything written; the capacity stays within twice the contents and all growth together has copied at most what the capacity gained |
| Streams.WriteStream.Bytes | bun-impl/src/quazal/stream.ts:154-158 | the contents are followed by the new bytes, across growth |
| Streams.WriteAll | bun-impl/src/quazal/stream.ts:79-162 | for every sequence of writes the result is their concatenation, and the bytes ever moved by growth are linear in it |
| Text.FromUtf8Utf8 | bun-impl/src/quazal/codec.ts:58-68 | every string is decoded from its own UTF-8 bytes |
| Text.Utf8FromUtf8 | bun-impl/src/quazal/codec.ts:41-58 | the strict decoder accepts only the one encoding of a string: encoding again gives the same bytes |
| KnownAnswers.Utf8Examples | bun-impl/src/quazal/codec.test.ts:32 | a character of each length and its UTF-8 bytes |
| StationUrls.PrintThenParse | bun-impl/src/quazal/types.ts:44-79 | a URL object survives printing and parsing if and only if it is printable: no separators in its parts, distinct parameters other than address and port, a 16-bit port |
| StationUrls.ParsedIsPrintable | bun-impl/src/quazal/types.ts:44-71 | every URL the parser accepts is printable, despite duplicate keys, any order, equals signs in values and signs or leading zeros in ports |
| StationUrls.ParsePrintParse | bun-impl/src/quazal/types.ts:44-79 | for every accepted string, parsing the printed form of the result gives the same URL, parameter order included |
| StationUrls.PrintedAsIs | bun-impl/src/quazal/types.ts:44-79 | a text is accepted and printed again as it was if and only if it has a scheme and its parts are an address, a port in plain decimal, and further parameters with distinct keys |
| StationUrls.Parse | bun-impl/src/quazal/types.ts:44-71 | the parser's loop over a Map with replaced and deleted keys |
| OrderedMap.PutKeepsPlaces | bun-impl/src/quazal/types.ts:49-56 | a parameter given again keeps its place and takes the new value, and no other changes |
| StationUrls.ParseFormatProperties | bun-impl/src/quazal/types.ts:196-213 | every list of pairs of 32-bit numbers is read back from its formatted string |
| KnownAnswers.PrintedUrl | bun-impl/src/quazal/types.ts:73-79 | the printed form of every URL: scheme, address, port in decimal, and the further parameters in order |
| KnownAnswers.Ports | bun-impl/src/quazal/types.ts:65-67 | a port is accepted if and only if it is some digits, zeros in front included, with or without a plus sign, and at most 65535 |
| KnownAnswers.PrintedProperties | bun-impl/src/quazal/types.ts:196-198 | the stored form of every list of properties |
| CodecCanonical.ReadsBack | bun-impl/src/quazal/codec.ts:29-165 | for every codec built from the combinators, whatever it writes in front of any data is read back as the same value, leaving exactly that data, if and only if no string in the value contains a NUL, the keys of its maps are distinct and its URLs are printable; a NUL alone makes reading throw |
| CodecRoundTrip.RoundTripEntries | bun-impl/src/quazal/codec.ts:125-144 | the same for maps with their insertion order, given distinct keys |
| CodecRoundTrip.RoundTripFields | bun-impl/src/quazal/codec.ts:149-165 | the same for structs, whose last field may take everything that is left |
| CodecCanonical.VariantsAndObjects | bun-impl/src/quazal/types.ts:112-180 | tagged variants and doubly wrapped objects are such codecs: the same if and only if |
| CodecCanonical.Canonical | bun-impl/src/quazal/codec.ts:29-165 | whenever decoding succeeds, encoding the value again reproduces the consumed bytes if and only if they contain none of the alternative spellings: a boolean above 1, a lone NUL for the empty string, a URL not in printed form, a repeated map key, bytes behind a nested value |
| CodecCanonical.ReadClean | bun-impl/src/quazal/codec.ts:47-165 | whatever is decoded is a sendable value without NULs, so it can be sent on and read again |
| WireFormat.ValueLayout | bun-impl/src/quazal/codec.ts:29-165 | what every codec writes, place by place: counts and lengths in their widths, tags, and the parts of lists, maps, structs and nested values one after another |
| WireFormat.NumberLayout | bun-impl/src/quazal/codec.ts:29-36 | numbers are their base-256 digits, lowest first, in exactly their width, negative ones as complements; any other number throws |
| WireFormat.TextLayout | bun-impl/src/quazal/codec.ts:47-71 | a string is its UTF-8 bytes and a NUL behind a length that counts both; the empty one is the length 0 alone |
| KnownAnswers.VariantTags | bun-impl/src/quazal/types.ts:112-159 | which tag stands for which type |
| KnownAnswers.UnknownTags | bun-impl/src/quazal/types.ts:130-131 | any other tag is rejected |
| KnownAnswers.AnyObject | bun-impl/src/quazal/types.ts:170-180 | an object of any class is its class name and its bytes in two nested buffers |
| KnownAnswers.Booleans | bun-impl/src/quazal/codec.ts:39 | any byte but 0 is read as true |
| KnownAnswers.RepeatedKey | bun-impl/src/quazal/codec.ts:125-135 | a key that is read twice keeps one place and the last value when it is a number, a boolean or a string, and both entries otherwise |
| KnownAnswers.MalformedTexts | bun-impl/src/quazal/codec.test.ts:35-40 | the malformed strings of the tests are rejected, and a lone NUL is read as the empty string |
| CodecErrors.ReadFails | bun-impl/src/quazal/rmc/protocol.ts:99-108 | whatever is wrong with what is read, a codec throws a stream error and nothing else |
| CodecStreams.Decode | bun-impl/src/quazal/codec.ts:19-21 | decoding on a mutable stream, with the loops of list, map and struct, is the reading function of the two results above |
| CodecStreams.ReadMap | bun-impl/src/quazal/codec.ts:127-135 | the map reader's loop, in which a repeated key replaces a value and keeps its place |
| CodecStreams.Encode | bun-impl/src/quazal/codec.ts:23-27 | encoding on a growing stream is the writing function, errors included |
| Packets.PacketRoundTrip | bun-impl/src/quazal/prudp/packet.ts:117-228 | a packet with a size field in front of anything, or one without at the end, is parsed back as what its receiver can see of it, taking exactly its own bytes, if and only if its payload is empty or encrypted and, when compressed, inflates within the limit and has a ratio byte other than 0 |
| Packets.ParseSerialized | bun-impl/src/quazal/prudp/packet.ts:117-228 | what every serialised packet is parsed to, also when its payload does not survive |
| Packets.SerializedIsValid | bun-impl/src/quazal/prudp/packet.ts:224-236 | every serialised packet passes its receiver's checksum validation |
| Packets.LastByteIsChecksum | bun-impl/src/quazal/prudp/packet.ts:224-228 | the last byte of a packet is the checksum of the others, keyed with the byte sum of the access key for an RVSec destination and with 0 for any other |
| Packets.AccessKeysMatter | bun-impl/src/quazal/context.ts:45-55 | a server with another access key accepts a packet if and only if it does not go to an RVSec port or the two keys have the same byte sum modulo 256 |
| WireFormat.PacketLayout | bun-impl/src/quazal/prudp/packet.ts:4-19 | every serialised packet has the documented layout, place by place, with a payload that decrypts to its frame |
| WireFormat.ParseLayout | bun-impl/src/quazal/prudp/packet.ts:117-172 | exactly which bytes are parsed as a packet, and every field and the payload of the result as they stand at their places |
| KnownAnswers.GameSynIsAccepted | bun-impl/src/quazal/prudp/packet.test.ts:19-24 | the recorded first packet of the game is parsed and accepted with the access key of the game |
| Datagrams.SplitSerialized | bun-impl/src/quazal/prudp/server.ts:110-139 | any concatenation of packets, of which only the last may lack a size field, is split into exactly that sequence |
| Datagrams.InvalidIsSkipped | bun-impl/src/quazal/prudp/server.ts:110-130 | what cannot be parsed ends a datagram, and a packet with a wrong checksum is left out while everything behind it is handled |
| Datagrams.CorruptionDetected | bun-impl/src/quazal/prudp/packet.ts:230-236 | a valid packet with any one byte changed by at most 252, its checksum included, is rejected, as long as it keeps its length and its checksum key |
| Datagrams.FromBytes | bun-impl/src/quazal/prudp/packet.ts:117-172 | the parser with its running offset never reads past the data and computes the parse function |
| Datagrams.ToBytes | bun-impl/src/quazal/prudp/packet.ts:175-228 | the serialiser computes the bytes of the round trip, the layout and the checksum above, or the exception |
| Datagrams.Validate | bun-impl/src/quazal/prudp/packet.ts:231-236 | accepts exactly when the last byte is the checksum of the others under the key above |
| Datagrams.SumKey | bun-impl/src/quazal/context.ts:46-55 | the wrapping sum of the access key is its byte sum modulo 2^32 |
| Rmc.RequestRoundTrip | bun-impl/src/quazal/rmc/message.ts:36-75 | an encoded request is parsed back if and only if its protocol id is below 0x7f or in 0xff..0xffff |
| Rmc.ResponseRoundTrip | bun-impl/src/quazal/rmc/message.ts:77-115 | an encoded response is parsed back if and only if its protocol id fits 16 bits and a successful one's method id is a signed 32-bit number with bit 15 clear |
| Rmc.KindsAreTold | bun-impl/src/quazal/rmc/message.ts:36-51 | no encoded request is ever parsed as a response, and no response as a request |
| WireFormat.RequestLayout | bun-impl/src/quazal/rmc/message.ts:36-64 | exactly which bytes are parsed as a request, with every field at its place, and the error of all others |
| WireFormat.ResponseLayout | bun-impl/src/quazal/rmc/message.ts:36-96 | exactly which bytes are parsed as a response, with every field at its place and bit 15 of the method id cleared, and the error of all others |
| WireFormat.EncodedRequestLayout | bun-impl/src/quazal/rmc/message.ts:66-75 | an encoded request says its own size, and every field at its place |
| WireFormat.EncodedResponseLayout | bun-impl/src/quazal/rmc/message.ts:98-115 | an encoded response says its own size, every field at its place, and sets bit 15 of the method id |
| Rmc.ParseRmcPacket | bun-impl/src/quazal/rmc/message.ts:36-96 | the parsers on a mutable stream compute the parse function, with their error kinds |
| Rmc.EncodeRmcRequest | bun-impl/src/quazal/rmc/message.ts:66-75 | filling buffers in place gives the bytes the round trip is about |
| Rmc.EncodeRmcResponse | bun-impl/src/quazal/rmc/message.ts:98-115 | the same for responses |
| Dispatch.EveryRequestIsAnswered | bun-impl/src/quazal/rmc/protocol.ts:130-174 | every parsed request gets one response, at once or later, that decodes to the same protocol and call id and to the outcome it deserves: 0x80010001 for an unknown protocol or method, 0x8001000a for parameters that cannot be read, 0x80010002 without a handler, the code of the kind a handler refuses with, 0x80010012 for any other exception or a result that cannot be sent, and otherwise exactly the bytes the result is encoded to; only a promised response of 4 GiB or more is lost |
| Dispatch.OthersAreRefused | bun-impl/src/quazal/rmc/protocol.ts:130-143 | a response, or anything that does not parse, is not answered |
| Dispatch.CallRoundTrip | bun-impl/src/quazal/rmc/protocol.ts:57-108 | parameters and results encoded with a method's codecs reach the handler and the caller as the same values |
| Dispatch.ErrorCodesSurvive | bun-impl/src/quazal/rmc/error.ts:14-55 | the code of every kind, with bit 31 set; a client recognises all of them, and exactly the two kinds that share another kind's code come back as that one |
| Dispatch.OnlyErrorCodes | bun-impl/src/quazal/rmc/error.ts:48-54 | a client takes no other number for an error it knows |
| Dispatch.RmcDispatcher.HandleCall | bun-impl/src/quazal/rmc/protocol.ts:130-174 | the dispatcher with its registered protocols computes the response the results above are about |
| Dispatch.RegistrationIsLocal | bun-impl/src/quazal/rmc/protocol.ts:125-128 | registering a protocol decides how requests to it are answered, whatever was registered under its id before, and changes no other answer |
| Kerberos.CacheKeyInjective | bun-impl/src/quazal/kerberos.ts:59-62 | different counts or secrets never share a cache key, whatever colons a secret contains |
| Kerberos.DerivedKeys | bun-impl/src/quazal/kerberos.ts:58-68 | the key of a principal is the password hashed 65000 times at the start of each block of 1024 principals, and within a block the hash of the one before; principals 1024 apart share it |
| Kerberos.DefaultPassword | bun-impl/src/quazal/kerberos.ts:15-61 | no password stands for UbiDummyPwd |
| Kerberos.KeyCache.DeriveKey | bun-impl/src/quazal/kerberos.ts:55-75 | the key is the hash iterated 65000 + pid mod 1024 times over the password or the default one, in a buffer of its own; the cache holds at most 4096 entries and drops the oldest |
| Kerberos.Replay | bun-impl/src/quazal/kerberos.ts:55-75 | after any history of calls in which callers write whatever they like, at any time, into any buffer they were ever given, every result is still the plain definition's |
| Kerberos.OpenSealedTicket | bun-impl/src/quazal/kerberos.ts:26-42 | the service opens what it sealed, for every nonce |
| Kerberos.TicketWritten | bun-impl/src/quazal/kerberos.ts:17-22 | the sealed bytes are what the struct codec of the ticket writes |
| Kerberos.TicketRead | bun-impl/src/quazal/kerberos.ts:17-22 | and what it reads: the same ticket on the inputs it accepts, and the same error on all others |
| WireFormat.TicketLayout | bun-impl/src/quazal/kerberos.ts:18-22 | exactly 28 bytes or more are a ticket, with principal, validity and session key at their places |
| WireFormat.SealedLayout | bun-impl/src/quazal/kerberos.ts:26-42 | a sealed ticket is opened if and only if the box behind its 24 bytes of nonce opens under that nonce to a ticket |
| Kerberos.TicketRoundTrip | bun-impl/src/quazal/kerberos.ts:78-115 | a client that knows the password gets the session key, the service and the sealed part out of an encoded ticket |
| WireFormat.EncodedLayout | bun-impl/src/quazal/kerberos.ts:99-115 | a client accepts exactly what ends with the MAC of the rest under its derived key and decrypts to a key, a service and a sealed part of the length it says |
| ClassOrder.OrderedHasNoCycle | bun-impl/scripts/generate-protocols.ts:183-208 | references that form a cycle admit no order at all |
| ClassOrder.ReferencesSay | bun-impl/scripts/generate-protocols.ts:66-121 | the references of a class are found if and only if all types in it are supported, and are exactly its base class and the classes its fields mention as themselves, as list elements, or as keys or values of maps |
| ClassOrder.Sorter.Visit | bun-impl/scripts/generate-protocols.ts:187-205 | the depth-first visit terminates, keeps the result ordered, and fails only with a cycle of references in hand or on an unsupported type |
| ClassOrder.SortClasses | bun-impl/scripts/generate-protocols.ts:183-208 | with distinct names, returns a permutation of the classes in which each follows all other local classes it needs as its base or in a field, and the given order when that is one; throws if and only if such needs form a cycle or a type is not supported |
| Registry.StepKeepsInv | bun-impl/src/quazal/prudp/server.ts:110-410 | every step keeps the two client tables disjoint and under their own signatures, the connection id index the inverse of the connected clients' ids, the ids in use among the last ones handed out, and the reports exact |
| Registry.NextIdUnused | bun-impl/src/quazal/prudp/server.ts:240-245 | the next connection id is not in use while fewer than 2^32 tickets have been accepted |
| Runs.RunKeepsInv | bun-impl/src/quazal/prudp/server.ts:110-410 | the same over every run |
| Runs.LookupIsExact | bun-impl/src/quazal/prudp/server.ts:104-107 | at every point of every run, looking up a connection id gives the one connected client that has it, and nothing if there is none, also after disconnects, expiry and half-failed tickets |
| Frames.DataFrame | bun-impl/src/quazal/prudp/server.ts:250-313 | a DATA packet changes nothing but its own client's time, buffer and counter, the output, and what the message it completes brings about |
| Frames.StepFrame | bun-impl/src/quazal/prudp/server.ts:110-410 | no step changes who a client is; only its own packets touch its buffer and time, only requests use up its numbers, and calls in progress and deliveries change exactly as packets and promises say |
| Runs.StepAdvances | bun-impl/src/quazal/prudp/server.ts:186-248 | a client gets a connection id only in the step in which it goes from waiting to connected |
| Runs.RunAdvances | bun-impl/src/quazal/prudp/server.ts:186-248 | over any part of any run a client goes from new to connected to gone and never back, and keeps the ids it was given |
| Phases.StepMoves | bun-impl/src/quazal/prudp/server.ts:141-410 | exactly how every event moves every client: a waiting one connects with a CONNECT under its signature, a connected one leaves with its DISCONNECT, both after more than 60 seconds of silence at a tick, and nothing else moves any; signatures, sessions, connection id and user change in that CONNECT alone, the last two if and only if its ticket opens and is valid; each report is made for its own reason |
| Phases.StepCreates | bun-impl/src/quazal/client-info.ts:9-23 | a SYN makes one new waiting client, with all of its initial fields, and no other event makes any |
| Runs.ReportedExactlyOnce | bun-impl/src/quazal/prudp/server.ts:154-164 | at every point of every run exactly the clients that were connected and are gone have been reported to one of the two callbacks, once each |
| Runs.TickKeepsTheLive | bun-impl/src/quazal/prudp/server.ts:397-410 | after a tick both tables hold exactly their former members heard of within 60 seconds |
| Runs.LoginsAreVouched | bun-impl/src/quazal/prudp/server.ts:231-248 | on the secure service, at every point of every run a client has a user if and only if it has a connection id, and then some CONNECT under its signature presented a ticket for that user which opened and had not expired |
| Runs.RegistrationFindsId | bun-impl/src/services/secure-connection.ts:15-34 | the missing-connection-id error behind the login check is unreachable, and a connected client is found by its id |
| Liveness.StepTimes | bun-impl/src/quazal/prudp/server.ts:141-184 | a client counts as seen exactly when one of its DATA or PING packets is handled, and no step changes any other client's time |
| Liveness.ExpiresWhenSilent | bun-impl/src/quazal/prudp/server.ts:397-410 | over any part of any run, a connected client survives a tick of the timer if and only if its last DATA or PING packet came at most 60 seconds before |
| Addressing.PacketAnswers | bun-impl/src/quazal/prudp/server.ts:141-387 | everything sent while a packet is handled goes back to where it came from with its ports exchanged, flagged as acknowledgement or reliable response, under the signature and session of the client it is for |
| Addressing.PromiseAnswers | bun-impl/src/quazal/prudp/server.ts:306-334 | a promised response goes where its request came from, in the same way, whatever happened in between |
| Addressing.RequestsAreNumbered | bun-impl/src/quazal/prudp/server.ts:346-353 | whatever has happened since some earlier point of a run, a request goes to the address its client had then, under the signature it was given, reliable, and is numbered by the requests made to it since, modulo 65536 |
| Addressing.RecognisedAreAcknowledged | bun-impl/src/quazal/prudp/server.ts:141-260 | exactly the packets of clients the server recognises are acknowledged, before anything else is sent, under their own number, a SYN with the signature it is given and a CONNECT with 0; other packets change nothing |
| ResponseStream.StreamIsExact | bun-impl/src/quazal/prudp/server.ts:306-387 | whatever packets arrive and in whatever order handlers finish, parsing, validating and joining the datagrams sent for a client gives exactly its responses and server requests in the order they were sent, never interleaved |
| ResponseStream.MessageReceived | bun-impl/src/quazal/prudp/server.ts:316-343 | one response of at most 256,000 bytes reaches an up-to-date client whole and leaves all other clients as they were |
| ResponseStream.RequestReceived | bun-impl/src/quazal/prudp/server.ts:346-353 | a request of the server that can be serialised reaches its client as a message of its own if and only if it is a DATA packet numbered 0 modulo 256, or not at all, whose payload survives compression; all other clients are left as they were |
| ResponseStream.FragmentArrives | bun-impl/src/quazal/prudp/server.ts:336-387 | each fragment arrives with its bytes, its sequence number and its number modulo 256 |
| ResponseStream.FragmentSizes | bun-impl/src/quazal/prudp/server.ts:316-334 | a response is cut into pieces of 1000 bytes and a rest |
| ResponseStream.NothingToSend | bun-impl/src/quazal/prudp/server.ts:318-320 | nothing is sent for an empty response |
| ResponseStream.AckUnseen | bun-impl/src/quazal/prudp/server.ts:355-367 | acknowledgements, with or without payload, never disturb the stream |
| ResponseLimits.ResponseLimit | bun-impl/src/quazal/prudp/server.ts:316-334 | a non-empty response reaches its client as one message if and only if it has at most 256,000 bytes: beyond that a fragment before the last is numbered 0 modulo 256 |
| ResponseLimits.ResponsesAreNumbered | bun-impl/src/quazal/prudp/server.ts:336-343 | in every run, the k-th response datagram for a client parses to one packet with sequence number (1 + k) mod 65536 |
| Reassembly.CompleteWhen | bun-impl/src/quazal/prudp/server.ts:277-292 | a last fragment completes a message if and only if the buffered numbers are exactly 1 to their count, and the message is their bytes in that order and its own |
| Reassembly.AnyOrder | bun-impl/src/quazal/prudp/server.ts:261-292 | fragments in any order with any repetitions, then the last one, give exactly the original message if and only if the others fit 1 MiB together |
| Reassembly.StoreKeepsLatest | bun-impl/src/quazal/prudp/server.ts:262-275 | a fragment replaces an earlier one with its number, unless the buffer would then hold more than 1 MiB, which empties it |
| Reassembly.RunBuffersBounded | bun-impl/src/quazal/prudp/server.ts:262-275 | in every reachable state no client has more than 1 MiB buffered, and none has fragment 0 |
| Reassembly.DataFeeds | bun-impl/src/quazal/prudp/server.ts:250-313 | a DATA packet changes the buffer of its own client only, and calls the handler once with the message it completes, or not at all |
| Reassembly.RunFeeds | bun-impl/src/quazal/prudp/server.ts:250-292 | whatever else happens, while a client stays connected its buffer is what the fragments under its signature make of it |
| Reassembly.RequestReassembled | bun-impl/src/quazal/prudp/server.ts:250-313 | end to end over a run: the handler is called once with exactly the message the client cut up, if and only if its first fragments fit the limit, and the buffer is empty again |
| Reassembly.LastFragment | bun-impl/src/quazal/prudp/server.ts:277-292 | a last fragment calls the handler, with the bytes of all fragments in order, if and only if the buffer is complete, and empties it in any case |
| Handshake.HandshakeCompletes | bun-impl/src/quazal/prudp/server.ts:194-248 | a waiting client that decodes its ticket and sends the sealed part with an encrypted challenge is connected; if and only if the clock has not passed the last second of the ticket it is given the next connection id, counted from 0x3aaaaaaa, bound to the ticket's principal, found by that id, and acknowledged with the answered challenge in a packet that arrives; each side's signature and session are kept for later packets |
| Handshake.PayloadIsRead | bun-impl/test/client.ts:148-156 | the server gets the ticket and the challenge out of the payload a client builds |
| Handshake.ReplyIsSuccessor | bun-impl/src/quazal/prudp/server.ts:246-247 | the answer is a buffer with the challenge plus one, modulo 2^32 |
| Handshake.ConnectLayout | bun-impl/src/quazal/prudp/server.ts:231-234 | a CONNECT payload is read if and only if it starts with two length-prefixed buffers, and gives the first as the ticket and the second as the request |
| Handshake.ChallengeLayout | bun-impl/src/quazal/prudp/server.ts:45-46 | the challenge is the third number of the decrypted request, which needs 12 bytes |
| Handshake.ReplyLayout | bun-impl/src/quazal/prudp/server.ts:247 | the answer byte for byte |
| Calls.CutMessage | bun-impl/test/client.ts:159-172 | the chunks a client cuts a message into make up the message, and fit the numbering if and only if it has at most 256,000 bytes |
| Calls.ChunkArrives | bun-impl/test/client.ts:159-172 | the datagram of a chunk brings the server exactly one packet, with the chunk under its number |
| Calls.LastFragmentSays | bun-impl/src/quazal/prudp/server.ts:294-312 | the packet that completes a message calls the handler with it, sends exactly its response, and puts exactly one call in progress when it promises one |
| Calls.OnlyRequestsAreAnswered | bun-impl/src/quazal/rmc/protocol.ts:130-174 | with the dispatcher behind a port, a complete message makes exactly one response due, sent at once or promised, if it is a request, and none if it is a response or malformed |
| Calls.RunKeepsCall | bun-impl/src/quazal/prudp/server.ts:306-310 | a promised call stays in progress, with its client, its address and its ports, through every later event until its own promise is settled |
| Calls.RejectedIsSilent | bun-impl/src/quazal/prudp/server.ts:306-310 | a promise that is rejected ends its call and sends nothing |
| Calls.CallIsAnswered | bun-impl/test/client.ts:187-201 | a remote call end to end: the response to an encoded request, cut into fragments that arrive in any order among other events, carries the same protocol and call id and the method's data or its error; it is the next message its client receives, right away when the method answers at once, and otherwise when its promise is settled, whatever has happened until then |
| Calls.DatagramsSend | bun-impl/test/client.ts:159-172 | when the datagrams a client cuts a message of at most 256,000 bytes into arrive in any order and number, the packets the server gets out of them send that message in the sense of the call above |
| PrudpServers.SumOthers | bun-impl/src/quazal/prudp/server.ts:264-267 | the loop over the buffered fragments, without the one that is replaced |
| PrudpServers.Reassemble | bun-impl/src/quazal/prudp/server.ts:278-291 | the loop that joins fragments 1 to the size of the buffer, or finds one missing |
| PrudpServers.PrudpServer.constructor | bun-impl/src/quazal/prudp/server.ts:48-66 | a new server is in the initial state |
| PrudpServers.PrudpServer.HandleDatagram | bun-impl/src/quazal/prudp/server.ts:110-139 | the loop terminates on every input and takes the run of steps of exactly the valid packets in front of the first unparsable one |
| PrudpServers.PrudpServer.HandlePacket | bun-impl/src/quazal/prudp/server.ts:141-184 | takes the step of the packet's type; acknowledgements and other types change nothing |
| PrudpServers.PrudpServer.HandleSyn | bun-impl/src/quazal/prudp/server.ts:186-192 | adds a new client object to the waiting table and acknowledges with its signature |
| PrudpServers.PrudpServer.HandleConnect | bun-impl/src/quazal/prudp/server.ts:194-225 | moves the shared client object between the tables, whether or not its ticket is accepted |
| PrudpServers.PrudpServer.AcceptTicket | bun-impl/src/quazal/prudp/server.ts:231-248 | logs the client in if and only if the ticket opens and the clock has not passed its last second, with all fields that change; the login takes effect before the challenge is read, so it stays when that fails |
| PrudpServers.PrudpServer.HandleData | bun-impl/src/quazal/prudp/server.ts:250-313 | buffers or completes a message in the client object, and calls the handler |
| PrudpServers.PrudpServer.SendMessage | bun-impl/src/quazal/prudp/server.ts:316-343 | the chunk loop sends the fragments the stream results are about and advances the client's counter |
| PrudpServers.PrudpServer.SendRequest | bun-impl/src/quazal/prudp/server.ts:346-353 | numbers and signs a request for its client, also when it then cannot be serialised |
| PrudpServers.PrudpServer.SendAck | bun-impl/src/quazal/prudp/server.ts:355-367 | the acknowledgement of a packet, addressed back and signed for the client |
| PrudpServers.PrudpServer.SendPacket | bun-impl/src/quazal/prudp/server.ts:377-387 | hands the serialised packet to the transport, or nothing when serialising throws |
| PrudpServers.PrudpServer.RemoveClient | bun-impl/src/quazal/prudp/server.ts:389-394 | removes a client and its connection id from both maps |
| PrudpServers.PrudpServer.HandleDisconnect | bun-impl/src/quazal/prudp/server.ts:154-164 | removes the client, acknowledges, and reports it |
| PrudpServers.PrudpServer.ClearExpiredClients | bun-impl/src/quazal/prudp/server.ts:397-410 | the two loops that delete while they iterate remove and report exactly the silent clients |
| PrudpServers.PrudpServer.Settle | bun-impl/src/quazal/prudp/server.ts:306-310 | a fulfilled promise sends its response to the client of its call, a rejected one sends nothing |
| PrudpServers.PrudpServer.FindByConnectionId | bun-impl/src/quazal/prudp/server.ts:104-107 | the lookup by connection id, through both maps |

## Left out

- zlib, secretbox, MD5, HMAC and random numbers: functions and inputs with the facts stated above; key sizes that secretbox would refuse are not modelled.
- UDP sockets, timers, logging, HTTP and gRPC servers, configuration and storage: input and output only. The transport is attached and never throws.
- Retransmission and suppression of duplicates: the server does neither, so nothing is claimed about repeated packets beyond identical fragments of one message.
- USER packets and `sendRaw`: the handler of USER packets is supplied from outside; without it they change nothing.
- Aliasing of packets and payload buffers: packets are values, since the program copies them before it changes them; only client objects, tables, streams, cached keys and the cipher state are shared and mutable.
- Cipher keys of other lengths than 1 to 256 bytes: with them an exception in an acknowledgement ends the handling of a packet midway. Results that would depend on that require a valid key, and a server is only created with one.
- What a handler does besides answering: its own requests, logins and lookups are separate events of a run, not part of the step that calls it.
- The order in which expired clients are reported: reports are counted, not ordered.
- Dispatch.EveryRequestIsAnswered: a promised response of 4 GiB or more is lost, as its contract says, because the size field does not fit and the rejection is only logged.
- CodecCanonical.ReadsBack: floats are their raw 4 or 8 bytes, so rounding to single precision is not modelled, nor are floats as map keys; strings are sequences of Unicode scalar values without lone surrogates.
- Lazily resolved codecs and the generated protocol modules: instances of the combinators.
- Class names in ClassOrder that coincide with properties every JavaScript object inherits: looked up as unknown classes here.
- Fixed-data services, address rewriting, the other scripts and the earlier implementations in other languages: no further hard behaviour.
