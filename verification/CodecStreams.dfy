/** The codecs at work on streams: loops and cursors that do what Codecs.Read and Codecs.Write say. */
module CodecStreams {
  import opened Basics
  import T = Text
  import opened StationUrls
  import opened Streams
  import opened Codecs

  // ---- reading ----

  /** A stream operation returned what the specification reads, and left what it leaves. */
  ghost predicate Agrees<A(!new)>(spec: Parsed<A>, r: Result<A>, rest: seq<byte>) {
    spec == if r.Ok? then Ok((r.value, rest)) else Err(r.error)
  }

  method ReadString(s: ReadStream) returns (r: Result<string>)
    requires s.Valid()
    modifies s
    ensures s.Valid() && Agrees(ReadText(old(s.Rest())), r, s.Rest())
  {
    var len :- s.Unsigned(2);
    if len == 0 {
      return Ok([]);
    }
    var data :- s.Bytes(len);
    r := TextOf(data);
  }

  method ReadPrefixed(s: ReadStream, prefix: nat) returns (r: Result<seq<byte>>)
    requires s.Valid()
    modifies s
    ensures s.Valid() && Agrees(ReadBuffer(old(s.Rest()), prefix), r, s.Rest())
  {
    var len :- s.Unsigned(prefix);
    r := s.Bytes(len);
  }

  method ReadPrimitive(c: Primitive, s: ReadStream) returns (r: Result<Value>)
    requires s.Valid()
    modifies s
    ensures s.Valid() && Agrees(ReadOne(c, old(s.Rest())), r, s.Rest())
  {
    match c
    case Unsigned(width) =>
      var n :- s.Unsigned(width);
      r := Ok(Number(n));
    case Signed(width) =>
      var n :- s.Unsigned(width);
      r := Ok(Number(Sign(n, width)));
    case Bool =>
      var n :- s.Unsigned(1);
      r := Ok(Flag(n != 0));
    case Text =>
      var text :- ReadString(s);
      r := Ok(String(text));
    case Buffer(prefix) =>
      var b :- ReadPrefixed(s, prefix);
      r := Ok(Bytes(b));
    case Fixed(size) =>
      var b :- s.Bytes(size);
      r := Ok(Bytes(b));
    case Tail =>
      var b := s.Remainder();
      r := Ok(Bytes(b));
    case Url =>
      var text :- ReadString(s);
      var u :- StationUrls.Parse(text);
      r := Ok(Station(u));
  }

  method ReadValue(c: Codec, s: ReadStream) returns (r: Result<Value>)
    requires s.Valid()
    modifies s
    ensures s.Valid() && Agrees(Read(c, old(s.Rest())), r, s.Rest())
    decreases c, 1, 0
  {
    match c
    case One(p) => r := ReadPrimitive(p, s);
    case List(item) => r := ReadList(item, s);
    case Map(key, value) => r := ReadMap(key, value, s);
    case Struct(fields) => r := ReadStruct(fields, s);
    case Union(cases) =>
      var tag :- s.Unsigned(1);
      if tag >= |cases| {
        return Err(StreamError);
      }
      var v :- ReadValue(cases[tag], s);
      r := Ok(Tagged(tag, v));
    case Nested(inner) =>
      var b :- ReadPrefixed(s, 4);
      var content := new ReadStream(b);
      r := ReadValue(inner, content);
  }

  lemma ReadItemsNext(item: Codec, count: nat, bs: seq<byte>, done: seq<Value>)
    ensures count == 0 ==> ReadItems(item, count, bs, done) == Ok((done, bs))
    ensures count > 0 ==>
              ReadItems(item, count, bs, done) ==
              if Read(item, bs).Err? then Err(Read(item, bs).error)
              else ReadItems(item, count - 1, Read(item, bs).value.1, done + [Read(item, bs).value.0])
  {}

  lemma ReadListIs(item: Codec, bs: seq<byte>)
    ensures var count := ReadUnsigned(bs, 4);
            Read(List(item), bs) ==
            if count.Err? then Err(count.error) else
            var items := ReadItems(item, count.value.0, count.value.1, []);
            if items.Err? then Err(items.error) else Ok((Items(items.value.0), items.value.1))
  {}

  method ReadList(item: Codec, s: ReadStream) returns (r: Result<Value>)
    requires s.Valid()
    modifies s
    ensures s.Valid() && Agrees(Read(List(item), old(s.Rest())), r, s.Rest())
    decreases item, 3, 0
  {
    hide Read, ReadItems, ReadUnsigned, Pow256;
    ReadListIs(item, s.Rest());
    var count :- s.Unsigned(4);
    ghost var all := ReadItems(item, count, s.Rest(), []);
    var result: seq<Value> := [];
    for i := 0 to count
      invariant s.Valid()
      invariant ReadItems(item, count - i, s.Rest(), result) == all
    {
      ReadItemsNext(item, count - i, s.Rest(), result);
      var v := ReadValue(item, s);
      if v.Err? {
        return Err(v.error);
      }
      result := result + [v.value];
    }
    ReadItemsNext(item, 0, s.Rest(), result);
    r := Ok(Items(result));
  }

  lemma ReadEntriesNext(key: Codec, value: Codec, count: nat, bs: seq<byte>, done: seq<(Value, Value)>)
    ensures count == 0 ==> ReadEntries(key, value, count, bs, done) == Ok((done, bs))
    ensures count > 0 ==>
              var e := ReadPair(key, value, bs);
              ReadEntries(key, value, count, bs, done) ==
              if e.Err? then Err(e.error)
              else ReadEntries(key, value, count - 1, e.value.1, PutEntry(done, e.value.0.0, e.value.0.1))
  {
    hide ReadPair, PutEntry;
  }

  lemma ReadMapIs(key: Codec, value: Codec, bs: seq<byte>)
    ensures var count := ReadUnsigned(bs, 4);
            Read(Map(key, value), bs) ==
            if count.Err? then Err(count.error) else
            var entries := ReadEntries(key, value, count.value.0, count.value.1, []);
            if entries.Err? then Err(entries.error) else Ok((Entries(entries.value.0), entries.value.1))
  {
    hide ReadEntries;
  }

  method ReadMap(key: Codec, value: Codec, s: ReadStream) returns (r: Result<Value>)
    requires s.Valid()
    modifies s
    ensures s.Valid() && Agrees(Read(Map(key, value), old(s.Rest())), r, s.Rest())
    decreases Map(key, value), 0, 1
  {
    hide Read, ReadEntries, ReadPair, PutEntry, ReadUnsigned, Pow256;
    ReadMapIs(key, value, s.Rest());
    var count :- s.Unsigned(4);
    ghost var all := ReadEntries(key, value, count, s.Rest(), []);
    var result: seq<(Value, Value)> := [];
    for i := 0 to count
      invariant s.Valid()
      invariant ReadEntries(key, value, count - i, s.Rest(), result) == all
    {
      ReadEntriesNext(key, value, count - i, s.Rest(), result);
      var e := ReadEntry(key, value, s);
      if e.Err? {
        return Err(e.error);
      }
      result := PutEntry(result, e.value.0, e.value.1);
    }
    ReadEntriesNext(key, value, 0, s.Rest(), result);
    r := Ok(Entries(result));
  }

  method ReadEntry(key: Codec, value: Codec, s: ReadStream) returns (r: Result<(Value, Value)>)
    requires s.Valid()
    modifies s
    ensures s.Valid() && Agrees(ReadPair(key, value, old(s.Rest())), r, s.Rest())
    decreases Map(key, value), 0, 0
  {
    var k :- ReadValue(key, s);
    var v :- ReadValue(value, s);
    r := Ok((k, v));
  }

  method ReadStruct(fields: seq<Codec>, s: ReadStream) returns (r: Result<Value>)
    requires s.Valid()
    modifies s
    ensures s.Valid() && Agrees(Read(Struct(fields), old(s.Rest())), r, s.Rest())
    decreases fields, 0, 0
  {
    ghost var all := ReadFields(fields, s.Rest(), []);
    var result: seq<Value> := [];
    for i := 0 to |fields|
      invariant s.Valid()
      invariant ReadFields(fields[i..], s.Rest(), result) == all
    {
      assert fields[i..][0] == fields[i] && fields[i..][1..] == fields[i + 1..];
      var v := ReadValue(fields[i], s);
      if v.Err? {
        return Err(v.error);
      }
      result := result + [v.value];
    }
    r := Ok(Items(result));
  }

  /** Decodes a value; bytes behind it are ignored. */
  method Decode(c: Codec, data: seq<byte>) returns (r: Result<Value>)
    ensures r == match Read(c, data) case Ok(p) => Ok(p.0) case Err(e) => Err(e)
  {
    var s := new ReadStream(data);
    r := ReadValue(c, s);
  }

  // ---- writing ----

  /** A stream operation appended what the specification writes, or threw what it throws. */
  ghost predicate Wrote(spec: Result<seq<byte>>, r: Result<()>, before: seq<byte>, after: seq<byte>) {
    && r == (if spec.Ok? then Ok(()) else Err(spec.error))
    && (spec.Ok? ==> after == before + spec.value)
  }

  method WriteString(w: WriteStream, s: string) returns (r: Result<()>)
    requires w.Valid()
    modifies w, w.buf
    ensures w.Valid() && (w.buf == old(w.buf) || fresh(w.buf))
    ensures Wrote(WriteText(s), r, old(w.Contents()), w.Contents())
  {
    hide Le, T.Utf8, Pow256;
    Widths();
    if |s| == 0 {
      r := w.Unsigned(0, 2);
      return;
    }
    var data := T.Utf8(s);
    var _ :- w.Unsigned(|data| + 1, 2);
    w.Bytes(data);
    w.Bytes([0]);
    r := Ok(());
    Assoc(old(w.Contents()), Le(|data| + 1, 2), data);
    Assoc(old(w.Contents()), Le(|data| + 1, 2) + data, [0]);
  }

  method WritePrefixed(w: WriteStream, b: seq<byte>, prefix: nat) returns (r: Result<()>)
    requires w.Valid()
    modifies w, w.buf
    ensures w.Valid() && (w.buf == old(w.buf) || fresh(w.buf))
    ensures Wrote(WriteOne(Buffer(prefix), Bytes(b)), r, old(w.Contents()), w.Contents())
  {
    var _ :- w.Unsigned(|b|, prefix);
    w.Bytes(b);
    r := Ok(());
    Assoc(old(w.Contents()), Le(|b|, prefix), b);
  }

  method WritePrimitive(c: Primitive, w: WriteStream, v: Value) returns (r: Result<()>)
    requires w.Valid()
    modifies w, w.buf
    ensures w.Valid() && (w.buf == old(w.buf) || fresh(w.buf))
    ensures Wrote(WriteOne(c, v), r, old(w.Contents()), w.Contents())
  {
    match (c, v)
    case (Unsigned(width), Number(n)) => r := w.Unsigned(n, width);
    case (Signed(width), Number(n)) => r := WriteTwosComplement(w, n, width);
    case (Bool, Flag(b)) =>
      w.Bytes([if b then 1 else 0]);
      r := Ok(());
    case (Text, String(s)) => r := WriteString(w, s);
    case (Buffer(prefix), Bytes(b)) => r := WritePrefixed(w, b, prefix);
    case (Fixed(size), Bytes(b)) =>
      if |b| != size {
        return Err(RangeError);
      }
      w.Bytes(b);
      r := Ok(());
    case (Tail, Bytes(b)) =>
      w.Bytes(b);
      r := Ok(());
    case (Url, Station(u)) => r := WriteString(w, PrintUrl(u));
    case _ => r := Err(TypeError);
  }

  method WriteTwosComplement(w: WriteStream, n: int, width: nat) returns (r: Result<()>)
    requires w.Valid()
    modifies w, w.buf
    ensures w.Valid() && (w.buf == old(w.buf) || fresh(w.buf))
    ensures Wrote(WriteSigned(n, width), r, old(w.Contents()), w.Contents())
  {
    var p: int := Pow256(width);
    if 2 * n < -p || 2 * n >= p {
      var _ := w.Reserve(width);
      return Err(RangeError);
    }
    r := w.Unsigned(if n < 0 then n + p else n, width);
  }

  method WriteValue(c: Codec, w: WriteStream, v: Value) returns (r: Result<()>)
    requires w.Valid()
    modifies w, w.buf
    ensures w.Valid() && (w.buf == old(w.buf) || fresh(w.buf))
    ensures Wrote(Write(c, v), r, old(w.Contents()), w.Contents())
    decreases c, 1, 0
  {
    match c
    case One(p) => r := WritePrimitive(p, w, v);
    case List(item) => r := WriteList(item, w, v);
    case Map(key, value) => r := WriteMap(key, value, w, v);
    case Struct(fields) => r := WriteStruct(fields, w, v);
    case Union(cases) =>
      if !v.Tagged? || v.tag >= |cases| {
        return Err(TypeError);
      }
      var _ :- w.Unsigned(v.tag, 1);
      var _ :- WriteValue(cases[v.tag], w, v.content);
      r := Ok(());
      Assoc(old(w.Contents()), Le(v.tag, 1), Write(cases[v.tag], v.content).value);
    case Nested(inner) =>
      var body :- Encode(inner, v);
      r := WritePrefixed(w, body, 4);
  }

  /** What has been written of a list, and what is still to come. */
  ghost predicate Progress(all: Result<seq<byte>>, done: seq<byte>, rest: Result<seq<byte>>) {
    all == if rest.Ok? then Ok(done + rest.value) else Err(rest.error)
  }

  lemma ProgressStart(all: Result<seq<byte>>)
    ensures Progress(all, [], all)
  {
    assert all.Ok? ==> [] + all.value == all.value;
  }

  lemma ProgressStep(all: Result<seq<byte>>, done: seq<byte>, first: Result<seq<byte>>, others: Result<seq<byte>>)
    requires Progress(all, done, if first.Err? then first else if others.Err? then others
                                 else Ok(first.value + others.value))
    ensures first.Ok? ==> Progress(all, done + first.value, others)
    ensures first.Err? ==> all == first
  {
    if first.Ok? && others.Ok? {
      Assoc(done, first.value, others.value);
    }
  }

  method WriteList(item: Codec, w: WriteStream, v: Value) returns (r: Result<()>)
    requires w.Valid()
    modifies w, w.buf
    ensures w.Valid() && (w.buf == old(w.buf) || fresh(w.buf))
    ensures Wrote(Write(List(item), v), r, old(w.Contents()), w.Contents())
    decreases item, 3, 0
  {
    hide Le;
    if !v.Items? {
      return Err(TypeError);
    }
    var _ :- w.Unsigned(|v.items|, 4);
    ghost var start := w.Contents();
    ghost var done: seq<byte> := [];
    assert v.items[0..] == v.items;
    ProgressStart(WriteItems(item, v.items));
    for i := 0 to |v.items|
      invariant w.Valid() && (w.buf == old(w.buf) || fresh(w.buf))
      invariant w.Contents() == start + done
      invariant Progress(WriteItems(item, v.items), done, WriteItems(item, v.items[i..]))
    {
      ghost var first := Write(item, v.items[i]);
      assert v.items[i..][0] == v.items[i] && v.items[i..][1..] == v.items[i + 1..];
      ProgressStep(WriteItems(item, v.items), done, first, WriteItems(item, v.items[i + 1..]));
      var one := WriteValue(item, w, v.items[i]);
      if one.Err? {
        return Err(one.error);
      }
      Assoc(start, done, first.value);
      done := done + first.value;
    }
    r := Ok(());
    Assoc(old(w.Contents()), Le(|v.items|, 4), done);
  }

  method WriteMap(key: Codec, value: Codec, w: WriteStream, v: Value) returns (r: Result<()>)
    requires w.Valid()
    modifies w, w.buf
    ensures w.Valid() && (w.buf == old(w.buf) || fresh(w.buf))
    ensures Wrote(Write(Map(key, value), v), r, old(w.Contents()), w.Contents())
    decreases Map(key, value), 0, 1
  {
    hide WritePair, Le;
    if !v.Entries? {
      return Err(TypeError);
    }
    var _ :- w.Unsigned(|v.entries|, 4);
    ghost var start := w.Contents();
    ghost var done: seq<byte> := [];
    assert v.entries[0..] == v.entries;
    ProgressStart(WriteEntries(key, value, v.entries));
    for i := 0 to |v.entries|
      invariant w.Valid() && (w.buf == old(w.buf) || fresh(w.buf))
      invariant w.Contents() == start + done
      invariant Progress(WriteEntries(key, value, v.entries), done, WriteEntries(key, value, v.entries[i..]))
    {
      ghost var first := WritePair(key, value, v.entries[i]);
      assert v.entries[i..][0] == v.entries[i] && v.entries[i..][1..] == v.entries[i + 1..];
      ProgressStep(WriteEntries(key, value, v.entries), done, first, WriteEntries(key, value, v.entries[i + 1..]));
      var one := WriteEntry(key, value, w, v.entries[i]);
      if one.Err? {
        return Err(one.error);
      }
      Assoc(start, done, first.value);
      done := done + first.value;
    }
    r := Ok(());
    Assoc(old(w.Contents()), Le(|v.entries|, 4), done);
  }

  method WriteEntry(key: Codec, value: Codec, w: WriteStream, e: (Value, Value)) returns (r: Result<()>)
    requires w.Valid()
    modifies w, w.buf
    ensures w.Valid() && (w.buf == old(w.buf) || fresh(w.buf))
    ensures Wrote(WritePair(key, value, e), r, old(w.Contents()), w.Contents())
    decreases Map(key, value), 0, 0
  {
    var _ :- WriteValue(key, w, e.0);
    var _ :- WriteValue(value, w, e.1);
    r := Ok(());
    Assoc(old(w.Contents()), Write(key, e.0).value, Write(value, e.1).value);
  }

  method WriteStruct(fields: seq<Codec>, w: WriteStream, v: Value) returns (r: Result<()>)
    requires w.Valid()
    modifies w, w.buf
    ensures w.Valid() && (w.buf == old(w.buf) || fresh(w.buf))
    ensures Wrote(Write(Struct(fields), v), r, old(w.Contents()), w.Contents())
    decreases fields, 0, 0
  {
    if !v.Items? {
      return Err(TypeError);
    }
    ghost var start := w.Contents();
    ghost var done: seq<byte> := [];
    assert v.items[0..] == v.items && fields[0..] == fields;
    ProgressStart(WriteFields(fields, v.items));
    for i := 0 to |fields|
      invariant w.Valid() && (w.buf == old(w.buf) || fresh(w.buf))
      invariant i <= |v.items| && w.Contents() == start + done
      invariant Progress(WriteFields(fields, v.items), done, WriteFields(fields[i..], v.items[i..]))
    {
      if i == |v.items| {
        return Err(TypeError);
      }
      ghost var first := Write(fields[i], v.items[i]);
      assert fields[i..][0] == fields[i] && fields[i..][1..] == fields[i + 1..];
      assert v.items[i..][0] == v.items[i] && v.items[i..][1..] == v.items[i + 1..];
      ProgressStep(WriteFields(fields, v.items), done, first, WriteFields(fields[i + 1..], v.items[i + 1..]));
      var one := WriteValue(fields[i], w, v.items[i]);
      if one.Err? {
        return Err(one.error);
      }
      Assoc(start, done, first.value);
      done := done + first.value;
    }
    r := if |v.items| == |fields| then Ok(()) else Err(TypeError);
  }

  method Encode(c: Codec, v: Value) returns (r: Result<seq<byte>>)
    ensures r == Write(c, v)
    decreases c, 2, 0
  {
    var w := new WriteStream(64);
    var _ :- WriteValue(c, w, v);
    var bytes := w.ToBuffer();
    r := Ok(bytes);
    assert [] + Write(c, v).value == Write(c, v).value;
  }
}
