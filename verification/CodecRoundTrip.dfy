/** Whatever a codec manages to write, it reads back, for every codec and every value. */
module CodecRoundTrip {
  import opened Basics
  import OrderedMap
  import T = Text
  import opened StationUrls
  import opened Codecs

  lemma ReadWrittenUnsigned(n: int, width: nat, rest: seq<byte>)
    requires WriteUnsigned(n, width).Ok?
    ensures ReadUnsigned(WriteUnsigned(n, width).value + rest, width) == Ok((n, rest))
  {
    ReadLe(n, width, rest);
  }

  lemma ReadWrittenSigned(n: int, width: nat, rest: seq<byte>)
    requires WriteSigned(n, width).Ok?
    ensures ReadOne(Signed(width), WriteSigned(n, width).value + rest) == Ok((Number(n), rest))
  {
    ReadWrittenUnsigned(if n < 0 then n + Pow256(width) else n, width, rest);
  }

  lemma ReadWrittenBuffer(b: seq<byte>, prefix: nat, rest: seq<byte>)
    requires WriteUnsigned(|b|, prefix).Ok?
    ensures ReadBuffer(WriteUnsigned(|b|, prefix).value + b + rest, prefix) == Ok((b, rest))
  {
    var size := WriteUnsigned(|b|, prefix).value;
    assert size + b + rest == size + (b + rest);
    ReadWrittenUnsigned(|b|, prefix, b + rest);
    TakeAppend(b, rest);
  }

  lemma TextOfUtf8(s: string)
    ensures TextOf(T.Utf8(s) + [0]) == if '\0' in s then Err(StreamError) else Ok(s)
  {
    var data := T.Utf8(s);
    assert (data + [0])[..|data|] == data;
    T.Utf8Nul(s);
    T.FromUtf8Utf8(s);
  }

  /** A string comes back unless it contains a NUL, which the reader takes for its terminator. */
  lemma ReadWrittenText(s: string, rest: seq<byte>)
    requires WriteText(s).Ok?
    ensures ReadText(WriteText(s).value + rest) == if '\0' in s then Err(StreamError) else Ok((s, rest))
  {
    Widths();
    if s == [] {
      ReadWrittenUnsigned(0, 2, rest);
    } else {
      var data := T.Utf8(s) + [0];
      ReadWrittenUnsigned(|data|, 2, data + rest);
      assert WriteText(s).value + rest == Le(|data|, 2) + (data + rest);
      TakeAppend(data, rest);
      TextOfUtf8(s);
    }
  }

  /** What a reader must find in front of `rest` when `v` was written there. */
  ghost predicate Returns<T(!new)>(read: Parsed<T>, clean: bool, v: T, rest: seq<byte>) {
    read == if clean then Ok((v, rest)) else Err(StreamError)
  }

  lemma RoundTripOne(c: Primitive, v: Value, rest: seq<byte>)
    requires WriteOne(c, v).Ok? && (v.Station? ==> Printable(v.url)) && (c.Tail? ==> rest == [])
    ensures Returns(ReadOne(c, WriteOne(c, v).value + rest), NulFreeOne(v), v, rest)
  {
    var bs := WriteOne(c, v).value;
    match c
    case Unsigned(width) => ReadWrittenUnsigned(v.n, width, rest);
    case Signed(width) => ReadWrittenSigned(v.n, width, rest);
    case Bool => Le1(bs[0]); ReadLe(bs[0], 1, rest);
    case Text => ReadWrittenText(v.s, rest);
    case Buffer(prefix) => ReadWrittenBuffer(v.bytes, prefix, rest);
    case Fixed(size) => TakeAppend(bs, rest);
    case Tail => assert bs + rest == bs;
    case Url => ReadWrittenText(PrintUrl(v.url), rest); PrintableSurvives(v.url);
  }

  /**
   * Reading what was written returns the value and stops right behind it, unless some string in it
   * contains a NUL; then reading fails.
   */
  lemma {:induction false} RoundTrip(c: Codec, v: Value, rest: seq<byte>)
    requires WellFormed(c) && Sendable(c, v) && Write(c, v).Ok?
    requires Bounded(c) || rest == []
    ensures Returns(Read(c, Write(c, v).value + rest), NulFree(c, v), v, rest)
    decreases c, 1, 0
  {
    match c
    case One(p) => RoundTripOne(p, v, rest);
    case List(item) => RoundTripList(item, v, rest);
    case Map(key, value) => RoundTripMap(key, value, v, rest);
    case Struct(fields) => RoundTripFields(fields, v.items, rest, []); assert [] + v.items == v.items;
    case Union(cases) => RoundTripUnion(cases, v, rest);
    case Nested(inner) => RoundTripNested(inner, v, rest);
  }

  lemma {:induction false} RoundTripList(item: Codec, v: Value, rest: seq<byte>)
    requires WellFormed(List(item)) && Sendable(List(item), v) && Write(List(item), v).Ok?
    ensures Returns(Read(List(item), Write(List(item), v).value + rest), NulFree(List(item), v), v, rest)
    decreases item, 3, 0
  {
    var count, body := WriteUnsigned(|v.items|, 4).value, WriteItems(item, v.items).value;
    assert count + body + rest == count + (body + rest);
    ReadWrittenUnsigned(|v.items|, 4, body + rest);
    RoundTripItems(item, v.items, rest, []);
    assert [] + v.items == v.items;
  }

  lemma {:induction false} RoundTripMap(key: Codec, value: Codec, v: Value, rest: seq<byte>)
    requires WellFormed(Map(key, value)) && Sendable(Map(key, value), v) && Write(Map(key, value), v).Ok?
    ensures Returns(Read(Map(key, value), Write(Map(key, value), v).value + rest), NulFree(Map(key, value), v), v, rest)
    decreases Map(key, value), 0, |v.entries| + 2
  {
    var count, body := WriteUnsigned(|v.entries|, 4).value, WriteEntries(key, value, v.entries).value;
    assert count + body + rest == count + (body + rest);
    ReadWrittenUnsigned(|v.entries|, 4, body + rest);
    assert [] + v.entries == v.entries;
    RoundTripEntries(key, value, v.entries, rest, []);
  }

  lemma {:induction false} RoundTripUnion(cases: seq<Codec>, v: Value, rest: seq<byte>)
    requires WellFormed(Union(cases)) && Sendable(Union(cases), v) && Write(Union(cases), v).Ok?
    requires Bounded(Union(cases)) || rest == []
    ensures Returns(Read(Union(cases), Write(Union(cases), v).value + rest), NulFree(Union(cases), v), v, rest)
    decreases cases, 1, 0
  {
    var tag, body := WriteUnsigned(v.tag, 1).value, Write(cases[v.tag], v.content).value;
    assert tag + body + rest == tag + (body + rest);
    ReadWrittenUnsigned(v.tag, 1, body + rest);
    RoundTrip(cases[v.tag], v.content, rest);
  }

  lemma {:induction false} RoundTripNested(inner: Codec, v: Value, rest: seq<byte>)
    requires WellFormed(inner) && Sendable(inner, v) && Write(Nested(inner), v).Ok?
    ensures Returns(Read(Nested(inner), Write(Nested(inner), v).value + rest), NulFree(inner, v), v, rest)
    decreases inner, 2, 0
  {
    var body := Write(inner, v).value;
    ReadWrittenBuffer(body, 4, rest);
    RoundTrip(inner, v, []);
    assert body + [] == body;
  }

  /** One turn of the reader's loop over what the writer's loop produced. */
  lemma ReadItemsStep(item: Codec, vs: seq<Value>, rest: seq<byte>, done: seq<Value>, tail: seq<byte>)
    requires vs != [] && WriteItems(item, vs).Ok?
    requires tail == WriteItems(item, vs[1..]).value + rest
    ensures WriteItems(item, vs).value + rest == Write(item, vs[0]).value + tail
    ensures var one := Read(item, Write(item, vs[0]).value + tail);
            ReadItems(item, |vs|, WriteItems(item, vs).value + rest, done) ==
            if one.Ok? then ReadItems(item, |vs| - 1, one.value.1, done + [one.value.0]) else Err(one.error)
  {
    var first, others := Write(item, vs[0]).value, WriteItems(item, vs[1..]).value;
    assert first + others + rest == first + (others + rest);
  }

  lemma {:induction false} RoundTripItems(item: Codec, vs: seq<Value>, rest: seq<byte>, done: seq<Value>)
    requires WellFormed(item) && Bounded(item) && WriteItems(item, vs).Ok?
    requires SendableItems(item, vs)
    ensures Returns(ReadItems(item, |vs|, WriteItems(item, vs).value + rest, done),
                    NulFreeItems(item, vs), done + vs, rest)
    decreases item, 2, |vs|
  {
    hide Read, Write, Bounded, WellFormed, NulFree;
    if vs == [] {
      assert done + vs == done && [] + rest == rest;
    } else {
      var tail := WriteItems(item, vs[1..]).value + rest;
      ReadItemsStep(item, vs, rest, done, tail);
      RoundTrip(item, vs[0], tail);
      if NulFree(item, vs[0]) {
        RoundTripItems(item, vs[1..], rest, done + [vs[0]]);
        assert done + [vs[0]] + vs[1..] == done + vs;
      }
    }
  }

  lemma PutNewEntry(done: seq<(Value, Value)>, es: seq<(Value, Value)>)
    requires es != [] && DistinctKeys(done + es)
    ensures PutEntry(done, es[0].0, es[0].1) == done + [es[0]]
    ensures (done + [es[0]]) + es[1..] == done + es
  {
    var all := done + es;
    assert all[|done|] == es[0];
    assert forall i :: 0 <= i < |done| ==> all[i] == done[i];
    OrderedMap.HasKey(done, es[0].0);
  }

  lemma ReadEntriesStep(key: Codec, value: Codec, es: seq<(Value, Value)>, rest: seq<byte>,
                        done: seq<(Value, Value)>, tail: seq<byte>)
    requires es != [] && WriteEntries(key, value, es).Ok?
    requires tail == WriteEntries(key, value, es[1..]).value + rest
    ensures WriteEntries(key, value, es).value + rest == WritePair(key, value, es[0]).value + tail
    ensures var one := ReadPair(key, value, WritePair(key, value, es[0]).value + tail);
            ReadEntries(key, value, |es|, WriteEntries(key, value, es).value + rest, done) ==
            if one.Ok?
            then ReadEntries(key, value, |es| - 1, one.value.1, PutEntry(done, one.value.0.0, one.value.0.1))
            else Err(one.error)
  {
    var first, others := WritePair(key, value, es[0]).value, WriteEntries(key, value, es[1..]).value;
    assert first + others + rest == first + (others + rest);
  }

  lemma {:induction false} RoundTripPair(key: Codec, value: Codec, e: (Value, Value), rest: seq<byte>)
    requires WellFormed(Map(key, value)) && WritePair(key, value, e).Ok?
    requires Sendable(key, e.0) && Sendable(value, e.1)
    ensures Returns(ReadPair(key, value, WritePair(key, value, e).value + rest),
                    NulFree(key, e.0) && NulFree(value, e.1), e, rest)
    decreases Map(key, value), 0, 0
  {
    var k, v := Write(key, e.0).value, Write(value, e.1).value;
    assert k + v + rest == k + (v + rest);
    RoundTrip(key, e.0, v + rest);
    RoundTrip(value, e.1, rest);
  }

  lemma {:induction false} RoundTripEntries(key: Codec, value: Codec, es: seq<(Value, Value)>,
                                            rest: seq<byte>, done: seq<(Value, Value)>)
    requires WellFormed(Map(key, value)) && WriteEntries(key, value, es).Ok?
    requires DistinctKeys(done + es)
    requires SendableEntries(key, value, es)
    ensures Returns(ReadEntries(key, value, |es|, WriteEntries(key, value, es).value + rest, done),
                    NulFreeEntries(key, value, es), done + es, rest)
    decreases Map(key, value), 0, 1 + |es|
  {
    if es == [] {
      assert done + es == done && [] + rest == rest;
    } else {
      var tail := WriteEntries(key, value, es[1..]).value + rest;
      ReadEntriesStep(key, value, es, rest, done, tail);
      RoundTripPair(key, value, es[0], tail);
      if NulFree(key, es[0].0) && NulFree(value, es[0].1) {
        PutNewEntry(done, es);
        RoundTripEntries(key, value, es[1..], rest, done + [es[0]]);
      }
    }
  }

  lemma ReadFieldsStep(fields: seq<Codec>, vs: seq<Value>, rest: seq<byte>, done: seq<Value>, tail: seq<byte>)
    requires fields != [] && WriteFields(fields, vs).Ok?
    requires vs != [] && tail == WriteFields(fields[1..], vs[1..]).value + rest
    ensures WriteFields(fields, vs).value + rest == Write(fields[0], vs[0]).value + tail
    ensures var one := Read(fields[0], Write(fields[0], vs[0]).value + tail);
            ReadFields(fields, WriteFields(fields, vs).value + rest, done) ==
            if one.Ok? then ReadFields(fields[1..], one.value.1, done + [one.value.0]) else Err(one.error)
  {
    var first, others := Write(fields[0], vs[0]).value, WriteFields(fields[1..], vs[1..]).value;
    assert first + others + rest == first + (others + rest);
  }

  /** Only the last field can take everything, and then nothing follows it. */
  lemma TailHasNoRest(fields: seq<Codec>, vs: seq<Value>, rest: seq<byte>)
    requires fields != [] && vs != [] && TailLast(fields) && WriteFields(fields, vs).Ok?
    requires (forall f :: f in fields ==> Bounded(f)) || rest == []
    ensures Bounded(fields[0]) || WriteFields(fields[1..], vs[1..]).value + rest == []
  {
    if |fields| > 1 {
      assert Bounded(fields[0]);
    } else {
      assert fields == [fields[0]] && fields[1..] == [];
    }
  }

  lemma {:induction false} RoundTripFields(fields: seq<Codec>, vs: seq<Value>, rest: seq<byte>, done: seq<Value>)
    requires forall f :: f in fields ==> WellFormed(f)
    requires TailLast(fields)
    requires (forall f :: f in fields ==> Bounded(f)) || rest == []
    requires WriteFields(fields, vs).Ok? && SendableFields(fields, vs)
    ensures Returns(ReadFields(fields, WriteFields(fields, vs).value + rest, done),
                    NulFreeFields(fields, vs), done + vs, rest)
    decreases fields, 0, 0
  {
    hide Read, Write, Bounded, WellFormed, NulFree;
    if fields == [] {
      assert done + vs == done && [] + rest == rest;
    } else {
      var tail := WriteFields(fields[1..], vs[1..]).value + rest;
      ReadFieldsStep(fields, vs, rest, done, tail);
      TailHasNoRest(fields, vs, rest);
      RoundTrip(fields[0], vs[0], tail);
      if NulFree(fields[0], vs[0]) {
        RoundTripFields(fields[1..], vs[1..], rest, done + [vs[0]]);
        assert done + [vs[0]] + vs[1..] == done + vs;
      }
    }
  }
}
