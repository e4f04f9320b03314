/** Texts and values as the repository's own tests fix them, for all inputs where there is a rule behind them. */
module KnownAnswers {
  import opened Basics
  import opened Checksums
  import opened Packets
  import T = Text
  import U = StationUrls
  import C = Codecs
  import W = WireFormat

  // ---- UTF-8 and decimal numbers ----

  /** One character of each length. */
  lemma Utf8Examples()
    ensures T.EncodeChar('A') == [0x41]
    ensures T.EncodeChar('\U{F6}') == [0xc3, 0xb6]
    ensures T.EncodeChar('\U{2713}') == [0xe2, 0x9c, 0x93]
    ensures T.EncodeChar('\U{1F600}') == [0xf0, 0x9f, 0x98, 0x80]
  {}

  /** The last digit says the number modulo 10, and the others say a tenth of it. */
  lemma LastDigit(n: nat)
    ensures var s := T.Digits(n);
            && s != [] && s[|s| - 1] as int == '0' as int + n % 10
            && (n >= 10 ==> s[..|s| - 1] == T.Digits(n / 10)) && (n < 10 ==> |s| == 1)
  {}

  // ---- strings ----

  /** Truncated, unterminated, doubly terminated and malformed strings are rejected; a lone NUL is empty. */
  lemma MalformedTexts()
    ensures C.ReadText([2, 0, 0x64]).Err?
    ensures C.ReadText([3, 0, 0x64, 0x65, 0xff]).Err?
    ensures C.ReadText([3, 0, 0x64, 0, 0]).Err?
    ensures C.ReadText([2, 0, 0xff, 0]).Err?
    ensures C.ReadText([1, 0, 0]) == Ok(([], []))
  {
    forall size: byte, data: seq<byte>
      ensures ReadUnsigned([size, 0] + data, 2) == Ok((size, data))
    {
      SizeOf(size, data);
    }
    assert [2, 0, 0x64] == [2, 0] + [0x64];
    assert [3, 0, 0x64, 0x65, 0xff] == [3, 0] + [0x64, 0x65, 0xff];
    assert [3, 0, 0x64, 0, 0] == [3, 0] + [0x64, 0, 0];
    assert [2, 0, 0xff, 0] == [2, 0] + [0xff, 0];
    assert [1, 0, 0] == [1, 0] + [0];
    assert [0x64, 0, 0][..3][..2][1] == 0;
    assert [0xff, 0][..2][..1] == [0xff] && T.FromUtf8([0xff]).None?;
    assert [0][..1] == [0] && [0][..0] == [] && T.FromUtf8([]) == Some([]);
  }

  lemma SizeOf(size: byte, data: seq<byte>)
    ensures ReadUnsigned([size, 0] + data, 2) == Ok((size, data))
  {
    assert ([size, 0] + data)[..2] == [size, 0] && ([size, 0] + data)[2..] == data;
    assert FromLe([0]) == 0;
    assert [size, 0][1..] == [0];
  }

  // ---- station URLs and properties ----

  /** The parameters of a URL behind its port. */
  function More(params: seq<(string, string)>): string {
    if params == [] then [] else ";" + params[0].0 + "=" + params[0].1 + More(params[1..])
  }

  lemma {:induction false} JoinMore(first: string, params: seq<(string, string)>)
    ensures T.Join([first] + U.PrintParams(params), ';') == first + More(params)
    decreases |params|
  {
    var printed := U.PrintParams(params);
    if params == [] {
      assert [first] + printed == [first];
    } else {
      var next := params[0].0 + ['='] + params[0].1;
      JoinMore(next, params[1..]);
      assert printed == [next] + U.PrintParams(params[1..]);
      JoinFirst(first, printed);
      Chain(first, params[0].0, params[0].1, More(params[1..]));
    }
  }

  lemma JoinFirst(first: string, parts: seq<string>)
    requires parts != []
    ensures T.Join([first] + parts, ';') == first + [';'] + T.Join(parts, ';')
  {
    assert ([first] + parts)[1..] == parts;
  }

  lemma Chain(first: string, key: string, value: string, more: string)
    ensures first + [';'] + (key + ['='] + value + more) == first + (";" + key + "=" + value + more)
  {}

  lemma Glue(scheme: string, address: string, port: string, more: string)
    ensures scheme + ":/" + ("address" + ['='] + address + (";" + "port" + "=" + port + more)) ==
            scheme + ":/address=" + address + ";port=" + port + more
  {
    assert ":/" + "address" + ['='] == ":/address=";
    assert ";" + "port" + "=" == ";port=";
  }

  /** A URL is printed with its address and its port first. */
  lemma PrintedUrl(u: U.StationURL)
    ensures U.PrintUrl(u) == u.scheme + ":/address=" + u.address + ";port=" + T.Digits(u.port) + More(u.params)
  {
    hide T.Digits;
    var params, rest := U.AllParams(u), [("port", T.Digits(u.port))] + u.params;
    var first := "address" + ['='] + u.address;
    assert U.PrintParams(params) == [first] + U.PrintParams(rest);
    JoinMore(first, rest);
    MoreFirst(("port", T.Digits(u.port)), u.params);
    Glue(u.scheme, u.address, T.Digits(u.port), More(u.params));
  }

  lemma MoreFirst(p: (string, string), params: seq<(string, string)>)
    ensures More([p] + params) == ";" + p.0 + "=" + p.1 + More(params)
  {
    assert ([p] + params)[1..] == params;
  }

  /** Properties are stored with an arrow, one behind the other. */
  lemma PrintedProperties(p: U.Property, ps: seq<U.Property>)
    ensures U.FormatProperties([]) == []
    ensures U.FormatProperties([p]) == T.Digits(p.0) + " => " + T.Digits(p.1)
    ensures ps != [] ==> U.FormatProperties([p] + ps) ==
                         T.Digits(p.0) + " => " + T.Digits(p.1) + ";" + U.FormatProperties(ps)
  {
    var all := [p] + ps;
    var printed := seq(|all|, i requires 0 <= i < |all| => U.FormatProperty(all[i]));
    var rest := seq(|ps|, i requires 0 <= i < |ps| => U.FormatProperty(ps[i]));
    assert printed[1..] == rest;
    var one := seq(1, i requires 0 <= i < 1 => U.FormatProperty([p][i]));
    assert one == [U.FormatProperty(p)];
  }

  // ---- variants ----

  /** A value behind its tag. */
  predicate IsTagged(tag: byte, c: C.Codec, v: C.Value) {
    var written := C.Write(c, v);
    C.Write(C.VARIANT, C.Tagged(tag, v)) == if written.Ok? then Ok([tag] + written.value) else Err(written.error)
  }

  lemma CaseIsTagged(tag: byte, v: C.Value)
    requires tag < 7
    ensures IsTagged(tag, C.VARIANT.cases[tag], v)
  {
    hide C.WriteOne, C.WriteUnsigned;
    Widths();
    TagByte(tag);
  }

  lemma TagByte(tag: byte)
    ensures C.WriteUnsigned(tag, 1) == Ok([tag])
  {
    Widths();
    Le1(tag);
  }

  /** Nothing, a signed number, a float, a boolean, a string, a date and an unsigned number, in this order. */
  lemma VariantTags(v: C.Value)
    ensures IsTagged(0, C.Struct([]), v) && IsTagged(1, C.One(C.Signed(8)), v) && IsTagged(2, C.One(C.Fixed(8)), v)
    ensures IsTagged(3, C.One(C.Bool), v) && IsTagged(4, C.One(C.Text), v)
    ensures IsTagged(5, C.One(C.Unsigned(8)), v) && IsTagged(6, C.One(C.Unsigned(8)), v)
  {
    hide IsTagged;
    CaseIsTagged(0, v);
    CaseIsTagged(1, v);
    CaseIsTagged(2, v);
    CaseIsTagged(3, v);
    CaseIsTagged(4, v);
    CaseIsTagged(5, v);
    CaseIsTagged(6, v);
  }

  /** Other tags are rejected. */
  lemma UnknownTags(bs: seq<byte>)
    requires bs != [] && bs[0] >= 7
    ensures C.Read(C.VARIANT, bs) == Err(StreamError)
  {
    Le1(bs[0]);
    assert bs[..1] == [bs[0]];
  }

  /** An object of any class is the name of the class and its bytes, wrapped in two buffers. */
  lemma AnyObject(name: string, data: seq<byte>)
    requires C.Write(C.ANY_DATA, C.Items([C.String(name), C.Bytes(data)])).Ok?
    ensures C.WriteText(name).Ok?
    ensures var bs := C.Write(C.ANY_DATA, C.Items([C.String(name), C.Bytes(data)])).value;
            var at := |C.WriteText(name).value|;
            && |bs| == at + 8 + |data| && bs[..at] == C.WriteText(name).value
            && W.Int32(bs, at) == |data| + 4 && W.Int32(bs, at + 4) == |data| && bs[at + 8..] == data
  {
    hide C.WriteText, C.WriteUnsigned, Le, W.Int32;
    var f1, f2 := C.One(C.Text), C.Nested(C.One(C.Buffer(4)));
    var v1, v2 := C.String(name), C.Bytes(data);
    assert [f1, f2][1..] == [f2] && [v1, v2][1..] == [v2] && [f2][1..] == [] && [v2][1..] == [];
    assert C.WriteFields([], []) == Ok([]);
    assert C.WriteFields([f2], [v2]) == Ok(C.Write(f2, v2).value + []);
    var text, inner := C.WriteText(name).value, C.WriteUnsigned(|data|, 4).value;
    W.NumberFirst(|data|, data);
    W.NumberFirst(|inner + data|, inner + data);
    var outer := C.WriteUnsigned(|inner + data|, 4).value;
    TwoBuffers(text, outer, inner, data);
  }

  lemma TwoBuffers(text: seq<byte>, outer: seq<byte>, inner: seq<byte>, data: seq<byte>)
    requires |outer| == 4 && |inner| == 4
    ensures var bs, at := text + ((outer + (inner + data)) + []), |text|;
            && |bs| == at + 8 + |data| && bs[..at] == text && bs[at + 8..] == data
            && W.Int32(bs, at) == W.Int32(outer + (inner + data), 0) && W.Int32(bs, at + 4) == W.Int32(inner + data, 0)
  {}

  /** Any byte but 0 is read as true. */
  lemma Booleans(b: byte, rest: seq<byte>)
    ensures C.Read(C.One(C.Bool), [b] + rest) == Ok((C.Flag(b != 0), rest))
  {
    Le1(b);
    assert ([b] + rest)[..1] == [b] && ([b] + rest)[1..] == rest;
  }

  /** A key that is read twice: numbers, booleans and strings keep one place and the last value, others both. */
  lemma RepeatedKey(key: C.Codec, value: C.Codec, k: C.Value, v: C.Value, w: C.Value, bs: seq<byte>,
                    rest: seq<byte>, end: seq<byte>)
    requires C.ReadPair(key, value, bs) == Ok(((k, v), rest)) && C.ReadPair(key, value, rest) == Ok(((k, w), end))
    ensures C.Read(C.Map(key, value), [2, 0, 0, 0] + bs) ==
            Ok((C.Entries(if k.Number? || k.Flag? || k.String? then [(k, w)] else [(k, v), (k, w)]), end))
  {
    hide C.ReadPair, C.PutEntry;
    TwoInFront(bs);
    PutTwice(k, v, w);
    var first := C.PutEntry([], k, v);
    var second := C.PutEntry(first, k, w);
    assert C.ReadEntries(key, value, 0, end, second) == Ok((second, end));
    assert C.ReadEntries(key, value, 1, rest, first) == Ok((second, end));
    assert C.ReadEntries(key, value, 2, bs, []) == Ok((second, end));
  }

  lemma PutTwice(k: C.Value, v: C.Value, w: C.Value)
    ensures C.PutEntry([], k, v) == [(k, v)]
    ensures C.PutEntry([(k, v)], k, w) == if k.Number? || k.Flag? || k.String? then [(k, w)] else [(k, v), (k, w)]
  {
    assert [(k, v)][0 := (k, w)] == [(k, w)];
  }

  lemma TwoInFront(bs: seq<byte>)
    ensures ReadUnsigned([2, 0, 0, 0] + bs, 4) == Ok((2, bs))
  {
    var all := [2, 0, 0, 0] + bs;
    assert all[0..] == all && all[4..] == bs;
    W.NumberRead(all, 0);
  }

  predicate IsPort(digits: string, port: nat) {
    digits != [] && T.AllDigits(digits) && T.ParseDigits(digits) == port && port <= 65_535
  }

  /** A port is some digits, zeros in front included, with or without a plus sign, and fits 16 bits. */
  lemma Ports(s: string, port: nat)
    ensures U.ParsePort(s) == Ok(port) <==> IsPort(s, port) || (s != [] && s[0] == '+' && IsPort(s[1..], port))
  {
    if s != [] && s[0] == '+' {
      assert !T.AllDigits(s);
    }
  }

  // ---- checksums ----

  lemma ChecksumOfWord()
    ensures Checksum(0, [1, 2, 3, 4, 5]) == 15
  {
    var a: seq<byte> := [1, 2, 3, 4, 5];
    WordSumNext(a, 0);
    EmptyWordSum(a);
    DigitSum4(0x0403_0201);
    assert a[4..] == [5] && [5][..0] == [];
  }

  lemma ChecksumOfOnes()
    ensures Checksum(0x2f3, [0xff, 0xff, 0xff, 0xff, 0xff, 0xff, 0xff, 0xff]) == 0xee
  {
    var b: seq<byte> := [0xff, 0xff, 0xff, 0xff, 0xff, 0xff, 0xff, 0xff];
    WordSumNext(b, 0);
    WordSumNext(b, 1);
    EmptyWordSum(b);
    DigitSumWraps(0x1_ffff_fffe);
    DigitSum4(0xffff_fffe);
    assert b[8..] == [];
  }

  // ---- a packet of the game ----

  const ACCESS_KEY: seq<byte> := [0x79, 0x6c, 0x34, 0x4e, 0x47, 0x37, 0x71, 0x5a]

  const GAME_SYN: seq<byte> := [0x3f, 0x31, 0x20, 0, 0, 0, 0, 0, 0, 0, 0, 0, 0, 0, 0x40]

  lemma AccessKeySum()
    ensures ByteSum(ACCESS_KEY) == 688
  {
    hide ByteSum;
    assert ByteSum([]) == 0 by { Empty(); }
    ByteSumNext([], 0x79);
    ByteSumNext([] + [0x79], 0x6c);
    ByteSumNext([] + [0x79] + [0x6c], 0x34);
    ByteSumNext([] + [0x79] + [0x6c] + [0x34], 0x4e);
    ByteSumNext([] + [0x79] + [0x6c] + [0x34] + [0x4e], 0x47);
    ByteSumNext([] + [0x79] + [0x6c] + [0x34] + [0x4e] + [0x47], 0x37);
    ByteSumNext([] + [0x79] + [0x6c] + [0x34] + [0x4e] + [0x47] + [0x37], 0x71);
    ByteSumNext([] + [0x79] + [0x6c] + [0x34] + [0x4e] + [0x47] + [0x37] + [0x71], 0x5a);
    assert [] + [0x79] + [0x6c] + [0x34] + [0x4e] + [0x47] + [0x37] + [0x71] + [0x5a] == ACCESS_KEY;
  }

  lemma Empty()
    ensures ByteSum([]) == 0
  {}

  lemma SynChecksum()
    ensures Checksum(688, GAME_SYN[..14]) == 0x40
  {
    var data := GAME_SYN[..14];
    WordSumNext(data, 0);
    WordSumNext(data, 1);
    WordSumNext(data, 2);
    EmptyWordSum(data);
    DigitSum4(0x20_313f);
    var tail := data[12..];
    assert tail == [0, 0] && tail[..1] == [0] && [0][..0] == [];
    assert ByteSum(tail[..1]) == 0;
  }

  lemma SynIsPacket(ctx: Context)
    ensures W.IsPacket(ctx, GAME_SYN) && W.StartOf(GAME_SYN) == 14 && W.SizeOf(GAME_SYN) == 0
    ensures W.Opened(ctx, GAME_SYN, []) == Some(([], false)) && W.Int32(GAME_SYN, 10) == 0
  {
    assert W.Int16(GAME_SYN, 10) == 0 && W.Int16(GAME_SYN, 12) == 0;
  }

  /** The first packet of the game, recorded: parsed to a SYN that wants an acknowledgement, and accepted. */
  lemma GameSynIsAccepted(ctx: Context)
    requires ctx.accessKey == ACCESS_KEY
    ensures Parse(ctx, GAME_SYN).Ok? && Parse(ctx, GAME_SYN).value.1 == 15
    ensures var p := Parse(ctx, GAME_SYN).value.0;
            && p.packetType == 0 && p.flags == 4 && p.connSignature == Some(0) && p.payload == []
            && p.source == VPort(15, 3) && p.destination == VPort(1, 3) && ChecksumMatches(ctx, p, GAME_SYN)
  {
    hide Parse, Checksum, ByteSum, ChecksumMatches, W.IsPacket, W.StartOf, W.SizeOf, W.Opened, W.Int32, W.Int16;
    W.ParseLayout(ctx, GAME_SYN);
    SynIsPacket(ctx);
    var p := Parse(ctx, GAME_SYN).value.0;
    assert GAME_SYN[14..14] == [];
    AccessKeySum();
    SynChecksum();
    AcceptedWhen(ctx, p, GAME_SYN);
  }
}
