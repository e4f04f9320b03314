/** The codec combinators as a language of codecs and values, with what they write and read. */
module Codecs {
  import opened Basics
  import OrderedMap
  import T = Text
  import opened StationUrls

  datatype Primitive =
    | Unsigned(width: nat)                  // u8, u16, u32, u64
    | Signed(width: nat)                    // i8, i16, i32, i64
    | Bool
    | Text                                  // string
    | Buffer(prefix: nat)                   // buffer (4) and qBuffer (2)
    | Fixed(size: nat)                      // fixedBytes, and the bits of f32 and f64
    | Tail                                  // bufferTail
    | Url                                   // stationUrl

  datatype Codec =
    | One(of: Primitive)
    | List(item: Codec)
    | Map(key: Codec, value: Codec)
    | Struct(fields: seq<Codec>)
    | Union(cases: seq<Codec>)              // variant: a tag byte selects the case
    | Nested(inner: Codec)                  // the buffer inside a buffer of anyData

  datatype Value =
    | Number(n: int)
    | Flag(b: bool)
    | String(s: string)
    | Bytes(bytes: seq<byte>)
    | Station(url: StationURL)
    | Items(items: seq<Value>)              // lists, and structs in field order
    | Entries(entries: seq<(Value, Value)>) // maps in insertion order
    | Tagged(tag: nat, content: Value)

  const VARIANT := Union([Struct([]), One(Signed(8)), One(Fixed(8)), One(Bool), One(Text),
                          One(Unsigned(8)), One(Unsigned(8))])
  const ANY_DATA := Struct([One(Text), Nested(One(Buffer(4)))])

  // ---- writing ----

  /** A UTF-8 string with a length that includes its terminator; the empty string has neither. */
  function WriteText(s: string): Result<seq<byte>> {
    var data := T.Utf8(s);
    if s == [] then Ok(Le(0, 2))
    else if |data| + 1 < 0x1_0000 then Ok(Le(|data| + 1, 2) + data + [0])
    else Err(RangeError)
  }

  function WriteUnsigned(n: int, width: nat): Result<seq<byte>> {
    if 0 <= n < Pow256(width) then Ok(Le(n, width)) else Err(RangeError)
  }

  function WriteSigned(n: int, width: nat): Result<seq<byte>> {
    var p: int := Pow256(width);
    if -p <= 2 * n < 0 then Ok(Le(n + p, width))
    else if 0 <= 2 * n < p then Ok(Le(n, width))
    else Err(RangeError)
  }

  function WriteOne(c: Primitive, v: Value): Result<seq<byte>> {
    match (c, v)
    case (Unsigned(width), Number(n)) => WriteUnsigned(n, width)
    case (Signed(width), Number(n)) => WriteSigned(n, width)
    case (Bool, Flag(b)) => Ok([if b then 1 else 0])
    case (Text, String(s)) => WriteText(s)
    case (Buffer(prefix), Bytes(b)) =>
      var size :- WriteUnsigned(|b|, prefix);
      Ok(size + b)
    case (Fixed(size), Bytes(b)) => if |b| == size then Ok(b) else Err(RangeError)
    case (Tail, Bytes(b)) => Ok(b)
    case (Url, Station(u)) => WriteText(PrintUrl(u))
    case _ => Err(TypeError)
  }

  function Write(c: Codec, v: Value): Result<seq<byte>>
    decreases c, 1, 0
  {
    match c
    case One(p) => WriteOne(p, v)
    case List(item) =>
      if !v.Items? then Err(TypeError) else
      var count :- WriteUnsigned(|v.items|, 4);
      var body :- WriteItems(item, v.items);
      Ok(count + body)
    case Map(key, value) =>
      if !v.Entries? then Err(TypeError) else
      var count :- WriteUnsigned(|v.entries|, 4);
      var body :- WriteEntries(key, value, v.entries);
      Ok(count + body)
    case Struct(fields) =>
      if !v.Items? then Err(TypeError) else WriteFields(fields, v.items)
    case Union(cases) =>
      if !v.Tagged? || v.tag >= |cases| then Err(TypeError) else
      var tag :- WriteUnsigned(v.tag, 1);
      var body :- Write(cases[v.tag], v.content);
      Ok(tag + body)
    case Nested(inner) =>
      var body :- Write(inner, v);
      var size :- WriteUnsigned(|body|, 4);
      Ok(size + body)
  }

  function WriteItems(item: Codec, vs: seq<Value>): Result<seq<byte>>
    decreases item, 2, |vs|
  {
    if vs == [] then Ok([]) else
    var first :- Write(item, vs[0]);
    var rest :- WriteItems(item, vs[1..]);
    Ok(first + rest)
  }

  function WritePair(key: Codec, value: Codec, e: (Value, Value)): Result<seq<byte>>
    decreases Map(key, value), 0, 0
  {
    var k :- Write(key, e.0);
    var v :- Write(value, e.1);
    Ok(k + v)
  }

  function WriteEntries(key: Codec, value: Codec, es: seq<(Value, Value)>): Result<seq<byte>>
    decreases Map(key, value), 0, 1 + |es|
  {
    if es == [] then Ok([]) else
    var first :- WritePair(key, value, es[0]);
    var rest :- WriteEntries(key, value, es[1..]);
    Ok(first + rest)
  }

  function WriteFields(fields: seq<Codec>, vs: seq<Value>): Result<seq<byte>>
    decreases fields, 0, 0
  {
    if fields == [] then if vs == [] then Ok([]) else Err(TypeError)
    else if vs == [] then Err(TypeError) else
    var first :- Write(fields[0], vs[0]);
    var rest :- WriteFields(fields[1..], vs[1..]);
    Ok(first + rest)
  }

  // ---- reading ----

  type Parsed<T> = Result<(T, seq<byte>)>

  function Sign(n: nat, width: nat): int {
    if 2 * n < Pow256(width) then n else n - Pow256(width)
  }

  function ReadBuffer(bs: seq<byte>, prefix: nat): Parsed<seq<byte>> {
    var (size, rest) :- ReadUnsigned(bs, prefix);
    Take(rest, size)
  }

  /** Anything but one NUL, at the end, is rejected; so is malformed UTF-8. */
  function TextOf(data: seq<byte>): Result<string>
    requires data != []
  {
    var n := |data| - 1;
    if data[n] != 0 || 0 in data[..n] then Err(StreamError) else
    match T.FromUtf8(data[..n])
    case None => Err(StreamError)
    case Some(s) => Ok(s)
  }

  function ReadText(bs: seq<byte>): Parsed<string> {
    var (size, rest) :- ReadUnsigned(bs, 2);
    if size == 0 then Ok(([], rest)) else
    var (data, rest') :- Take(rest, size);
    var s :- TextOf(data);
    Ok((s, rest'))
  }

  /** JavaScript compares numbers, booleans and strings by value and everything else by identity. */
  predicate ByValue(k: Value) {
    k.Number? || k.Flag? || k.String?
  }

  function PutEntry(m: seq<(Value, Value)>, k: Value, v: Value): seq<(Value, Value)> {
    if ByValue(k) then OrderedMap.Put(m, k, v) else m + [(k, v)]
  }

  function ReadOne(c: Primitive, bs: seq<byte>): Parsed<Value> {
    match c
    case Unsigned(width) =>
      var (n, rest) :- ReadUnsigned(bs, width);
      Ok((Number(n), rest))
    case Signed(width) =>
      var (n, rest) :- ReadUnsigned(bs, width);
      Ok((Number(Sign(n, width)), rest))
    case Bool =>
      var (n, rest) :- ReadUnsigned(bs, 1);
      Ok((Flag(n != 0), rest))
    case Text =>
      var (s, rest) :- ReadText(bs);
      Ok((String(s), rest))
    case Buffer(prefix) =>
      var (b, rest) :- ReadBuffer(bs, prefix);
      Ok((Bytes(b), rest))
    case Fixed(size) =>
      var (b, rest) :- Take(bs, size);
      Ok((Bytes(b), rest))
    case Tail => Ok((Bytes(bs), []))
    case Url =>
      var (s, rest) :- ReadText(bs);
      var u :- ParseUrl(s);
      Ok((Station(u), rest))
  }

  function Read(c: Codec, bs: seq<byte>): Parsed<Value>
    decreases c, 1, 0
  {
    match c
    case One(p) => ReadOne(p, bs)
    case List(item) =>
      var (count, rest) :- ReadUnsigned(bs, 4);
      var (vs, rest') :- ReadItems(item, count, rest, []);
      Ok((Items(vs), rest'))
    case Map(key, value) =>
      var (count, rest) :- ReadUnsigned(bs, 4);
      var (es, rest') :- ReadEntries(key, value, count, rest, []);
      Ok((Entries(es), rest'))
    case Struct(fields) =>
      var (vs, rest) :- ReadFields(fields, bs, []);
      Ok((Items(vs), rest))
    case Union(cases) =>
      var (tag, rest) :- ReadUnsigned(bs, 1);
      if tag >= |cases| then Err(StreamError) else
      var (v, rest') :- Read(cases[tag], rest);
      Ok((Tagged(tag, v), rest'))
    case Nested(inner) =>
      var (b, rest) :- ReadBuffer(bs, 4);
      var (v, _) :- Read(inner, b);
      Ok((v, rest))
  }

  function ReadItems(item: Codec, count: nat, bs: seq<byte>, done: seq<Value>): Parsed<seq<Value>>
    decreases item, 2, count
  {
    if count == 0 then Ok((done, bs)) else
    var (v, rest) :- Read(item, bs);
    ReadItems(item, count - 1, rest, done + [v])
  }

  function ReadPair(key: Codec, value: Codec, bs: seq<byte>): Parsed<(Value, Value)>
    decreases Map(key, value), 0, 0
  {
    var (k, rest) :- Read(key, bs);
    var (v, rest') :- Read(value, rest);
    Ok(((k, v), rest'))
  }

  function ReadEntries(key: Codec, value: Codec, count: nat, bs: seq<byte>, done: seq<(Value, Value)>)
    : Parsed<seq<(Value, Value)>>
    decreases Map(key, value), 0, 1 + count
  {
    if count == 0 then Ok((done, bs)) else
    var (e, rest) :- ReadPair(key, value, bs);
    ReadEntries(key, value, count - 1, rest, PutEntry(done, e.0, e.1))
  }

  function ReadFields(fields: seq<Codec>, bs: seq<byte>, done: seq<Value>): Parsed<seq<Value>>
    decreases fields, 0, 0
  {
    if fields == [] then Ok((done, bs)) else
    var (v, rest) :- Read(fields[0], bs);
    ReadFields(fields[1..], rest, done + [v])
  }

  // ---- which codecs and values the format supports ----

  /** A codec whose values end before the data does; the others take everything that is left. */
  predicate Bounded(c: Codec) {
    match c
    case One(p) => !p.Tail?
    case Struct(fields) => forall f :: f in fields ==> Bounded(f)
    case Union(cases) => forall f :: f in cases ==> Bounded(f)
    case _ => true
  }

  /** A codec that takes all that is left may only come last. */
  predicate WellFormed(c: Codec) {
    match c
    case One(_) => true
    case List(item) => WellFormed(item) && Bounded(item)
    case Map(key, value) => WellFormed(key) && WellFormed(value) && Bounded(key) && Bounded(value)
    case Struct(fields) => (forall f :: f in fields ==> WellFormed(f)) && TailLast(fields)
    case Union(cases) => forall f :: f in cases ==> WellFormed(f)
    case Nested(inner) => WellFormed(inner)
  }

  predicate TailLast(fields: seq<Codec>) {
    forall i :: 0 <= i < |fields| - 1 ==> Bounded(fields[i])
  }

  ghost predicate DistinctKeys(es: seq<(Value, Value)>) {
    forall i, j :: 0 <= i < j < |es| && ByValue(es[i].0) ==> es[i].0 != es[j].0
  }

  /**
   * What `v` has to satisfy to be a value of the original at all: the keys of a Map differ. URLs
   * that do not survive printing are left to StationUrls.PrintThenParse.
   */
  ghost predicate Sendable(c: Codec, v: Value)
    decreases c, 1, 0
  {
    match c
    case One(_) => v.Station? ==> Printable(v.url)
    case List(item) => v.Items? ==> SendableItems(item, v.items)
    case Map(key, value) => v.Entries? ==> DistinctKeys(v.entries) && SendableEntries(key, value, v.entries)
    case Struct(fields) => v.Items? ==> SendableFields(fields, v.items)
    case Union(cases) => v.Tagged? && v.tag < |cases| ==> Sendable(cases[v.tag], v.content)
    case Nested(inner) => Sendable(inner, v)
  }

  ghost predicate SendableItems(item: Codec, vs: seq<Value>)
    decreases item, 2, |vs|
  {
    vs != [] ==> Sendable(item, vs[0]) && SendableItems(item, vs[1..])
  }

  ghost predicate SendableEntries(key: Codec, value: Codec, es: seq<(Value, Value)>)
    decreases Map(key, value), 0, |es|
  {
    es != [] ==> Sendable(key, es[0].0) && Sendable(value, es[0].1) && SendableEntries(key, value, es[1..])
  }

  ghost predicate SendableFields(fields: seq<Codec>, vs: seq<Value>)
    decreases fields, 0, 0
  {
    fields != [] && vs != [] ==> Sendable(fields[0], vs[0]) && SendableFields(fields[1..], vs[1..])
  }

  /** The text a primitive value is sent as contains no NUL. */
  ghost predicate NulFreeOne(v: Value) {
    match v
    case String(s) => '\0' !in s
    case Station(u) => '\0' !in PrintUrl(u)
    case _ => true
  }

  ghost predicate NulFree(c: Codec, v: Value)
    decreases c, 1, 0
  {
    match c
    case One(_) => NulFreeOne(v)
    case List(item) => v.Items? ==> NulFreeItems(item, v.items)
    case Map(key, value) => v.Entries? ==> NulFreeEntries(key, value, v.entries)
    case Struct(fields) => v.Items? ==> NulFreeFields(fields, v.items)
    case Union(cases) => v.Tagged? && v.tag < |cases| ==> NulFree(cases[v.tag], v.content)
    case Nested(inner) => NulFree(inner, v)
  }

  ghost predicate NulFreeItems(item: Codec, vs: seq<Value>)
    decreases item, 2, |vs|
  {
    vs != [] ==> NulFree(item, vs[0]) && NulFreeItems(item, vs[1..])
  }

  ghost predicate NulFreeEntries(key: Codec, value: Codec, es: seq<(Value, Value)>)
    decreases Map(key, value), 0, |es|
  {
    es != [] ==> NulFree(key, es[0].0) && NulFree(value, es[0].1) && NulFreeEntries(key, value, es[1..])
  }

  ghost predicate NulFreeFields(fields: seq<Codec>, vs: seq<Value>)
    decreases fields, 0, 0
  {
    fields != [] && vs != [] ==> NulFree(fields[0], vs[0]) && NulFreeFields(fields[1..], vs[1..])
  }
}
