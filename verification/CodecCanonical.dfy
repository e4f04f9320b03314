/** Which byte strings a codec reproduces after reading them. */
module CodecCanonical {
  import opened Basics
  import OrderedMap
  import T = Text
  import opened StationUrls
  import opened Codecs
  import opened CodecRoundTrip

  // ---- the few spellings that are accepted but never written ----

  /** Not a lone NUL, which reads as the empty string. */
  predicate StrictText(bs: seq<byte>)
    requires ReadText(bs).Ok?
  {
    ReadUnsigned(bs, 2).value.0 != 1
  }

  ghost predicate StrictOne(p: Primitive, bs: seq<byte>)
    requires ReadOne(p, bs).Ok?
  {
    match p
    case Bool => bs[0] <= 1
    case Text => StrictText(bs)
    case Url => StrictText(bs) && InPrintedForm(ReadText(bs).value.0)
    case _ => true
  }

  /** `bs` starts with the one spelling of its value that the writer uses. */
  ghost predicate Strict(c: Codec, bs: seq<byte>)
    requires Read(c, bs).Ok?
    decreases c, 1, 0
  {
    match c
    case One(p) => StrictOne(p, bs)
    case List(item) =>
      var (count, rest) := ReadUnsigned(bs, 4).value;
      StrictItems(item, count, rest, [])
    case Map(key, value) =>
      var (count, rest) := ReadUnsigned(bs, 4).value;
      StrictEntries(key, value, count, rest, [])
    case Struct(fields) => StrictFields(fields, bs, [])
    case Union(cases) =>
      var (tag, rest) := ReadUnsigned(bs, 1).value;
      Strict(cases[tag], rest)
    case Nested(inner) =>
      var b := ReadBuffer(bs, 4).value.0;
      Read(inner, b).value.1 == [] && Strict(inner, b)
  }

  ghost predicate StrictItems(item: Codec, count: nat, bs: seq<byte>, done: seq<Value>)
    requires ReadItems(item, count, bs, done).Ok?
    decreases item, 2, count
  {
    count > 0 ==>
      && Strict(item, bs)
      && var (v, rest) := Read(item, bs).value; StrictItems(item, count - 1, rest, done + [v])
  }

  /** Both parts in their one spelling, and no key that replaces an earlier one. */
  ghost predicate StrictEntries(key: Codec, value: Codec, count: nat, bs: seq<byte>, done: seq<(Value, Value)>)
    requires ReadEntries(key, value, count, bs, done).Ok?
    decreases Map(key, value), 0, 1 + count
  {
    count > 0 ==>
      && StrictPair(key, value, bs)
      && var (e, rest) := ReadPair(key, value, bs).value;
      && !(ByValue(e.0) && OrderedMap.Has(done, e.0))
      && StrictEntries(key, value, count - 1, rest, PutEntry(done, e.0, e.1))
  }

  ghost predicate StrictPair(key: Codec, value: Codec, bs: seq<byte>)
    requires ReadPair(key, value, bs).Ok?
    decreases Map(key, value), 0, 0
  {
    Strict(key, bs) && Strict(value, Read(key, bs).value.1)
  }

  ghost predicate StrictFields(fields: seq<Codec>, bs: seq<byte>, done: seq<Value>)
    requires ReadFields(fields, bs, done).Ok?
    decreases fields, 0, 0
  {
    fields != [] ==>
      && Strict(fields[0], bs)
      && var (v, rest) := Read(fields[0], bs).value; StrictFields(fields[1..], rest, done + [v])
  }

  // ---- what a reader returns is something that can be sent ----

  lemma ReadTextNulFree(bs: seq<byte>)
    requires ReadText(bs).Ok?
    ensures '\0' !in ReadText(bs).value.0
  {
    var (size, rest) := ReadUnsigned(bs, 2).value;
    if size > 0 {
      var data := Take(rest, size).value.0;
      T.Utf8FromUtf8(data[..size - 1]);
      T.Utf8Nul(TextOf(data).value);
    }
  }

  lemma ReadOneClean(p: Primitive, bs: seq<byte>)
    requires ReadOne(p, bs).Ok?
    ensures var v := ReadOne(p, bs).value.0;
            (v.Station? ==> Printable(v.url)) && NulFreeOne(v)
  {
    match p
    case Text => ReadTextNulFree(bs);
    case Url =>
      ReadTextNulFree(bs);
      ParsedIsPrintable(ReadText(bs).value.0);
      ParsedLacks(ReadText(bs).value.0, '\0');
    case _ =>
  }

  ghost predicate Clean(c: Codec, v: Value) {
    Sendable(c, v) && NulFree(c, v)
  }

  lemma {:induction false} ReadClean(c: Codec, bs: seq<byte>)
    requires WellFormed(c) && Read(c, bs).Ok?
    ensures Clean(c, Read(c, bs).value.0)
    decreases c, 1, 0
  {
    match c
    case One(p) => ReadOneClean(p, bs);
    case List(item) =>
      var (count, rest) := ReadUnsigned(bs, 4).value;
      ReadItemsClean(item, count, rest, []);
      var vs := ReadItems(item, count, rest, []).value.0;
      assert vs[0..] == vs;
    case Map(key, value) =>
      var (count, rest) := ReadUnsigned(bs, 4).value;
      ReadEntriesClean(key, value, count, rest, []);
    case Struct(fields) =>
      ReadFieldsClean(fields, bs, []);
      var vs := ReadFields(fields, bs, []).value.0;
      assert vs[0..] == vs;
    case Union(cases) => ReadUnionClean(cases, bs);
    case Nested(inner) => ReadClean(inner, ReadBuffer(bs, 4).value.0);
  }

  lemma {:induction false} ReadUnionClean(cases: seq<Codec>, bs: seq<byte>)
    requires WellFormed(Union(cases)) && Read(Union(cases), bs).Ok?
    ensures Clean(Union(cases), Read(Union(cases), bs).value.0)
    decreases cases, 1, 0
  {
    var (tag, rest) := ReadUnsigned(bs, 1).value;
    ReadClean(cases[tag], rest);
  }

  ghost predicate CleanItems(item: Codec, vs: seq<Value>) {
    SendableItems(item, vs) && NulFreeItems(item, vs)
  }

  lemma {:induction false} ReadItemsClean(item: Codec, count: nat, bs: seq<byte>, done: seq<Value>)
    requires WellFormed(item) && ReadItems(item, count, bs, done).Ok?
    ensures var vs := ReadItems(item, count, bs, done).value.0;
            |vs| == |done| + count && vs[..|done|] == done && CleanItems(item, vs[|done|..])
    decreases item, 2, count
  {
    hide Read, WellFormed, Sendable, NulFree;
    if count == 0 {
    } else {
      ReadClean(item, bs);
      var (v, rest) := Read(item, bs).value;
      ReadItemsClean(item, count - 1, rest, done + [v]);
      Extends(done, v, ReadItems(item, count, bs, done).value.0);
    }
  }

  lemma Extends<A>(done: seq<A>, v: A, all: seq<A>)
    requires |all| > |done| && all[..|done| + 1] == done + [v]
    ensures all[..|done|] == done && all[|done|..][0] == v && all[|done|..][1..] == all[|done| + 1..]
  {
    assert all[..|done|] == all[..|done| + 1][..|done|];
    assert all[|done|] == all[..|done| + 1][|done|];
  }

  lemma {:induction false} ReadFieldsClean(fields: seq<Codec>, bs: seq<byte>, done: seq<Value>)
    requires (forall f :: f in fields ==> WellFormed(f)) && ReadFields(fields, bs, done).Ok?
    ensures var vs := ReadFields(fields, bs, done).value.0;
            && |vs| == |done| + |fields| && vs[..|done|] == done
            && SendableFields(fields, vs[|done|..]) && NulFreeFields(fields, vs[|done|..])
    decreases fields, 0, 0
  {
    if fields == [] {
    } else {
      ReadClean(fields[0], bs);
      var (v, rest) := Read(fields[0], bs).value;
      ReadFieldsClean(fields[1..], rest, done + [v]);
      Extends(done, v, ReadFields(fields, bs, done).value.0);
    }
  }

  ghost predicate CleanEntries(key: Codec, value: Codec, es: seq<(Value, Value)>) {
    SendableEntries(key, value, es) && NulFreeEntries(key, value, es)
  }

  ghost predicate CleanPair(key: Codec, value: Codec, e: (Value, Value)) {
    Clean(key, e.0) && Clean(value, e.1)
  }

  lemma {:induction false} CleanAt(key: Codec, value: Codec, es: seq<(Value, Value)>)
    ensures CleanEntries(key, value, es) <==> forall e :: e in es ==> CleanPair(key, value, e)
    decreases |es|
  {
    if es == [] {
    } else {
      CleanAt(key, value, es[1..]);
      assert CleanEntries(key, value, es) <==> CleanPair(key, value, es[0]) && CleanEntries(key, value, es[1..]);
      assert es[0] in es && forall e :: e in es <==> e == es[0] || e in es[1..];
    }
  }

  lemma PutClean(key: Codec, value: Codec, es: seq<(Value, Value)>, e: (Value, Value))
    requires CleanEntries(key, value, es) && CleanPair(key, value, e) && DistinctKeys(es)
    ensures CleanEntries(key, value, PutEntry(es, e.0, e.1)) && DistinctKeys(PutEntry(es, e.0, e.1))
  {
    CleanAt(key, value, es);
    var put := PutEntry(es, e.0, e.1);
    assert forall x :: x in put ==> x in es || x == e;
    CleanAt(key, value, put);
    OrderedMap.HasKey(es, e.0);
  }

  lemma {:induction false} ReadEntriesClean(key: Codec, value: Codec, count: nat, bs: seq<byte>,
                                            done: seq<(Value, Value)>)
    requires WellFormed(Map(key, value)) && ReadEntries(key, value, count, bs, done).Ok?
    requires CleanEntries(key, value, done) && DistinctKeys(done)
    ensures var es := ReadEntries(key, value, count, bs, done).value.0;
            CleanEntries(key, value, es) && DistinctKeys(es)
    decreases Map(key, value), 0, 1 + count
  {
    hide CleanEntries, CleanPair, DistinctKeys, WellFormed, ReadPair, PutEntry;
    if count == 0 {
    } else {
      ReadPairClean(key, value, bs);
      var (e, rest) := ReadPair(key, value, bs).value;
      PutClean(key, value, done, e);
      ReadEntriesClean(key, value, count - 1, rest, PutEntry(done, e.0, e.1));
    }
  }

  lemma {:induction false} ReadPairClean(key: Codec, value: Codec, bs: seq<byte>)
    requires WellFormed(Map(key, value)) && ReadPair(key, value, bs).Ok?
    ensures CleanPair(key, value, ReadPair(key, value, bs).value.0)
    decreases Map(key, value), 0, 0
  {
    ReadClean(key, bs);
    ReadClean(value, Read(key, bs).value.1);
  }

  /**
   * Of everything a codec can write, it reads back exactly the values without NULs whose maps have
   * distinct keys and whose URLs are printable. NULs make it throw.
   */
  lemma ReadsBack(c: Codec, v: Value, rest: seq<byte>)
    requires WellFormed(c) && Write(c, v).Ok? && (Bounded(c) || rest == [])
    ensures Read(c, Write(c, v).value + rest) == Ok((v, rest)) <==> Sendable(c, v) && NulFree(c, v)
    ensures Sendable(c, v) && !NulFree(c, v) ==> Read(c, Write(c, v).value + rest) == Err(StreamError)
  {
    hide Read, Write, WellFormed, Bounded, Sendable, NulFree;
    if Sendable(c, v) {
      RoundTrip(c, v, rest);
    } else if Read(c, Write(c, v).value + rest) == Ok((v, rest)) {
      ReadClean(c, Write(c, v).value + rest);
    }
  }

  /** The tagged variants and the doubly wrapped objects are such codecs, and anything may follow them. */
  lemma VariantsAndObjects(c: Codec, v: Value, rest: seq<byte>)
    requires (c == VARIANT || c == ANY_DATA) && Write(c, v).Ok?
    ensures Read(c, Write(c, v).value + rest) == Ok((v, rest)) <==> Sendable(c, v) && NulFree(c, v)
  {
    hide Read, Write, Sendable, NulFree;
    assert WellFormed(VARIANT) && Bounded(VARIANT) && WellFormed(ANY_DATA) && Bounded(ANY_DATA);
    ReadsBack(c, v, rest);
  }

  // ---- re-encoding ----

  /** Writing `v` in front of `rest` gives `bs` back. */
  ghost predicate Gives(written: Result<seq<byte>>, rest: seq<byte>, bs: seq<byte>) {
    written.Ok? && written.value + rest == bs
  }

  lemma WriteReadUnsigned(bs: seq<byte>, width: nat)
    requires ReadUnsigned(bs, width).Ok?
    ensures var (n, rest) := ReadUnsigned(bs, width).value;
            Gives(WriteUnsigned(n, width), rest, bs)
  {
    FromLeBound(bs[..width]);
    LeFromLe(bs[..width]);
  }

  /** Two numbers written in front of anything give the same bytes only when they are equal. */
  lemma CountDecides(n: nat, m: nat, x: seq<byte>, rest: seq<byte>, bs: seq<byte>, width: nat)
    requires ReadUnsigned(bs, width) == Ok((n, rest))
    requires WriteUnsigned(m, width).Ok? && WriteUnsigned(m, width).value + x == bs
    ensures n == m && x == rest
  {
    ReadWrittenUnsigned(m, width, x);
  }

  lemma LoneNul(bs: seq<byte>, rest: seq<byte>)
    requires ReadUnsigned(bs, 2).Ok? && ReadUnsigned(bs, 2).value.0 == 1
    ensures WriteText([]).value + rest != bs
  {
    Widths();
    ReadWrittenUnsigned(0, 2, rest);
  }

  /** A terminated string is written with the very bytes it was read from. */
  lemma WriteTextOf(data: seq<byte>)
    requires 2 <= |data| < 0x1_0000 && TextOf(data).Ok?
    ensures WriteText(TextOf(data).value) == Ok(Le(|data|, 2) + data)
  {
    hide Le, T.Utf8, T.FromUtf8;
    var n := |data| - 1;
    var s := TextOf(data).value;
    T.Utf8FromUtf8(data[..n]);
    T.Utf8Empty(s);
    assert data == data[..n] + [0];
    Assoc(Le(|data|, 2), data[..n], [0]);
  }

  lemma EmptyText(data: seq<byte>)
    requires |data| == 1 && TextOf(data).Ok?
    ensures TextOf(data).value == []
  {}

  lemma CanonicalText(bs: seq<byte>)
    requires ReadText(bs).Ok?
    ensures var (s, rest) := ReadText(bs).value;
            Gives(WriteText(s), rest, bs) <==> StrictText(bs)
  {
    hide Le, FromLe, T.Utf8, T.FromUtf8;
    var (n, rest) := ReadUnsigned(bs, 2).value;
    Widths();
    WriteReadUnsigned(bs, 2);
    if n == 1 {
      EmptyText(rest[..1]);
      LoneNul(bs, rest[1..]);
    } else if n > 1 {
      WriteTextOf(rest[..n]);
      assert Le(n, 2) + rest[..n] + rest[n..] == Le(n, 2) + rest;
    }
  }

  lemma CanonicalBuffer(bs: seq<byte>, prefix: nat)
    requires ReadBuffer(bs, prefix).Ok?
    ensures var (b, rest) := ReadBuffer(bs, prefix).value;
            WriteUnsigned(|b|, prefix).Ok? && WriteUnsigned(|b|, prefix).value + b + rest == bs
  {
    var (n, rest) := ReadUnsigned(bs, prefix).value;
    WriteReadUnsigned(bs, prefix);
    var size := WriteUnsigned(n, prefix).value;
    assert size + rest[..n] + rest[n..] == size + rest;
  }

  lemma CanonicalSigned(bs: seq<byte>, width: nat)
    requires ReadUnsigned(bs, width).Ok?
    ensures var (n, rest) := ReadUnsigned(bs, width).value;
            Gives(WriteSigned(Sign(n, width), width), rest, bs)
  {
    WriteReadUnsigned(bs, width);
  }

  lemma CanonicalUrl(bs: seq<byte>)
    requires ReadOne(Url, bs).Ok?
    ensures var (v, rest) := ReadOne(Url, bs).value;
            Gives(WriteOne(Url, v), rest, bs) <==> StrictOne(Url, bs)
  {
    var (s, rest) := ReadText(bs).value;
    var t := PrintUrl(ParseUrl(s).value);
    CanonicalText(bs);
    PrintedAsIs(s);
    if Gives(WriteText(t), rest, bs) {
      ReadTextNulFree(bs);
      ParsedLacks(s, '\0');
      ReadWrittenText(t, rest);
    }
  }

  lemma CanonicalOne(p: Primitive, bs: seq<byte>)
    requires ReadOne(p, bs).Ok?
    ensures var (v, rest) := ReadOne(p, bs).value;
            Gives(WriteOne(p, v), rest, bs) <==> StrictOne(p, bs)
  {
    hide ReadText, WriteText, ReadBuffer, ParseUrl, PrintUrl, InPrintedForm, StrictText, Le, FromLe;
    match p
    case Unsigned(width) => WriteReadUnsigned(bs, width);
    case Signed(width) => CanonicalSigned(bs, width);
    case Bool => Le1(bs[0]); assert bs[..1] == [bs[0]]; assert bs == [bs[0]] + bs[1..];
    case Text => CanonicalText(bs);
    case Buffer(prefix) => CanonicalBuffer(bs, prefix);
    case Fixed(size) => assert bs[..size] + bs[size..] == bs;
    case Tail => assert bs + [] == bs;
    case Url => CanonicalUrl(bs);
  }

  /**
   * Decoding and encoding again reproduces the bytes that were read exactly when they contain none
   * of the spellings Strict excludes: a boolean byte above 1, a lone NUL for the empty string, a URL
   * not in printed form, a repeated map key, bytes behind the value in a nested buffer.
   */
  lemma {:induction false} Canonical(c: Codec, bs: seq<byte>)
    requires WellFormed(c) && Read(c, bs).Ok?
    ensures var (v, rest) := Read(c, bs).value;
            Gives(Write(c, v), rest, bs) <==> Strict(c, bs)
    decreases c, 1, 0
  {
    match c
    case One(p) => CanonicalOne(p, bs);
    case List(item) => CanonicalList(item, bs);
    case Map(key, value) => CanonicalMap(key, value, bs);
    case Struct(fields) =>
      CanonicalFields(fields, bs, []);
      var vs := ReadFields(fields, bs, []).value.0;
      assert vs[0..] == vs;
    case Union(cases) => CanonicalUnion(cases, bs);
    case Nested(inner) => CanonicalNested(inner, bs);
  }

  lemma {:induction false} CanonicalUnion(cases: seq<Codec>, bs: seq<byte>)
    requires WellFormed(Union(cases)) && Read(Union(cases), bs).Ok?
    ensures var (v, rest) := Read(Union(cases), bs).value;
            Gives(Write(Union(cases), v), rest, bs) <==> Strict(Union(cases), bs)
    decreases cases, 1, 0
  {
    var (tag, rest) := ReadUnsigned(bs, 1).value;
    var (v, rest') := Read(cases[tag], rest).value;
    WriteReadUnsigned(bs, 1);
    Canonical(cases[tag], rest);
    var t, body := WriteUnsigned(tag, 1).value, Write(cases[tag], v);
    if body.Ok? {
      assert t + body.value + rest' == t + (body.value + rest');
      if t + (body.value + rest') == bs {
        CountDecides(tag, tag, body.value + rest', rest, bs, 1);
      }
    }
  }

  lemma {:induction false} CanonicalNested(inner: Codec, bs: seq<byte>)
    requires WellFormed(inner) && Read(Nested(inner), bs).Ok?
    ensures var (v, rest) := Read(Nested(inner), bs).value;
            Gives(Write(Nested(inner), v), rest, bs) <==> Strict(Nested(inner), bs)
    decreases inner, 2, 0
  {
    var (b, rest) := ReadBuffer(bs, 4).value;
    var (v, left) := Read(inner, b).value;
    CanonicalBuffer(bs, 4);
    Canonical(inner, b);
    var body := Write(inner, v);
    if Gives(Write(Nested(inner), v), rest, bs) {
      ReadClean(inner, b);
      ReadWrittenBuffer(body.value, 4, rest);
      RoundTrip(inner, v, []);
      assert body.value + [] == body.value == b;
    }
  }

  /** If writing gives the bytes back, then what reading left is what was written behind the value. */
  lemma FirstDecides(c: Codec, bs: seq<byte>, tail: seq<byte>)
    requires WellFormed(c) && Read(c, bs).Ok? && (Bounded(c) || tail == [])
    requires var v := Read(c, bs).value.0; Write(c, v).Ok? && Write(c, v).value + tail == bs
    ensures Read(c, bs).value.1 == tail
  {
    var v := Read(c, bs).value.0;
    ReadClean(c, bs);
    RoundTrip(c, v, tail);
  }

  lemma {:induction false} CanonicalItems(item: Codec, count: nat, bs: seq<byte>, done: seq<Value>)
    requires WellFormed(List(item)) && ReadItems(item, count, bs, done).Ok?
    ensures var (vs, rest) := ReadItems(item, count, bs, done).value;
            && |vs| == |done| + count
            && (Gives(WriteItems(item, vs[|done|..]), rest, bs) <==> StrictItems(item, count, bs, done))
    decreases item, 2, count
  {
    hide Read, Write, Strict, SendableItems, NulFreeItems;
    ReadItemsClean(item, count, bs, done);
    if count == 0 {
    } else {
      var (v, next) := Read(item, bs).value;
      var (vs, rest) := ReadItems(item, count - 1, next, done + [v]).value;
      ReadItemsClean(item, count - 1, next, done + [v]);
      Extends(done, v, vs);
      Canonical(item, bs);
      CanonicalItems(item, count - 1, next, done + [v]);
      SequenceGives(item, v, next, bs, WriteItems(item, vs[|done| + 1..]), rest);
    }
  }

  /** A value and its successors give `bs` back together exactly when each gives its own part back. */
  lemma SequenceGives(c: Codec, v: Value, next: seq<byte>, bs: seq<byte>, others: Result<seq<byte>>, rest: seq<byte>)
    requires WellFormed(c) && Read(c, bs) == Ok((v, next))
    requires Bounded(c) || (others.Ok? && others.value + rest == [])
             || (others.Ok? && others.value + rest == next)
    ensures Write(c, v).Ok? && others.Ok? && Write(c, v).value + others.value + rest == bs
            <==> Gives(Write(c, v), next, bs) && Gives(others, rest, next)
  {
    if Write(c, v).Ok? && others.Ok? {
      var first, tail := Write(c, v).value, others.value + rest;
      assert first + others.value + rest == first + tail;
      if first + tail == bs && tail != next {
        FirstDecides(c, bs, tail);
      }
    }
  }

  lemma {:induction false} CanonicalList(item: Codec, bs: seq<byte>)
    requires WellFormed(List(item)) && Read(List(item), bs).Ok?
    ensures var (v, rest) := Read(List(item), bs).value;
            Gives(Write(List(item), v), rest, bs) <==> Strict(List(item), bs)
    decreases item, 3, 0
  {
    var (count, next) := ReadUnsigned(bs, 4).value;
    var (vs, rest) := ReadItems(item, count, next, []).value;
    CanonicalItems(item, count, next, []);
    assert vs[0..] == vs;
    CountedGives(count, next, bs, WriteItems(item, vs), rest);
  }

  /** The same for the count in front of a list or a map. */
  lemma CountedGives(count: nat, next: seq<byte>, bs: seq<byte>, body: Result<seq<byte>>, rest: seq<byte>)
    requires ReadUnsigned(bs, 4) == Ok((count, next))
    ensures WriteUnsigned(count, 4).Ok?
    ensures body.Ok? && WriteUnsigned(count, 4).value + body.value + rest == bs <==> Gives(body, rest, next)
  {
    WriteReadUnsigned(bs, 4);
    if body.Ok? {
      var size, tail := WriteUnsigned(count, 4).value, body.value + rest;
      assert size + body.value + rest == size + tail;
      if size + tail == bs {
        CountDecides(count, count, tail, next, bs, 4);
      }
    }
  }

  lemma {:induction false} CanonicalFields(fields: seq<Codec>, bs: seq<byte>, done: seq<Value>)
    requires (forall f :: f in fields ==> WellFormed(f)) && TailLast(fields)
    requires ReadFields(fields, bs, done).Ok?
    ensures var (vs, rest) := ReadFields(fields, bs, done).value;
            && |vs| == |done| + |fields|
            && (Gives(WriteFields(fields, vs[|done|..]), rest, bs) <==> StrictFields(fields, bs, done))
    decreases fields, 0, 0
  {
    ReadFieldsClean(fields, bs, done);
    if fields == [] {
    } else {
      var (v, next) := Read(fields[0], bs).value;
      var (vs, rest) := ReadFields(fields[1..], next, done + [v]).value;
      ReadFieldsClean(fields[1..], next, done + [v]);
      Extends(done, v, vs);
      Canonical(fields[0], bs);
      CanonicalFields(fields[1..], next, done + [v]);
      var others := WriteFields(fields[1..], vs[|done| + 1..]);
      if |fields| == 1 {
        assert fields[1..] == [] && vs[|done| + 1..] == [];
        assert others == Ok([]) && rest == next && [] + rest == next;
      }
      SequenceGives(fields[0], v, next, bs, others, rest);
    }
  }

  lemma {:induction false} CanonicalPair(key: Codec, value: Codec, bs: seq<byte>)
    requires WellFormed(Map(key, value)) && ReadPair(key, value, bs).Ok?
    ensures var (e, rest) := ReadPair(key, value, bs).value;
            Gives(WritePair(key, value, e), rest, bs) <==> StrictPair(key, value, bs)
    decreases Map(key, value), 0, 0
  {
    var (k, next) := Read(key, bs).value;
    var (v, rest) := Read(value, next).value;
    Canonical(key, bs);
    Canonical(value, next);
    SequenceGives(key, k, next, bs, Write(value, v), rest);
  }

  lemma PairSequenceGives(key: Codec, value: Codec, e: (Value, Value), next: seq<byte>, bs: seq<byte>,
                          others: Result<seq<byte>>, rest: seq<byte>)
    requires WellFormed(Map(key, value)) && ReadPair(key, value, bs) == Ok((e, next))
    ensures var first := WritePair(key, value, e);
            first.Ok? && others.Ok? && first.value + others.value + rest == bs
            <==> Gives(first, next, bs) && Gives(others, rest, next)
  {
    var written := WritePair(key, value, e);
    if written.Ok? && others.Ok? {
      var first, tail := written.value, others.value + rest;
      assert first + others.value + rest == first + tail;
      if first + tail == bs {
        ReadPairClean(key, value, bs);
        RoundTripPair(key, value, e, tail);
      }
    }
  }

  ghost predicate Repeats(done: seq<(Value, Value)>, k: Value) {
    ByValue(k) && OrderedMap.Has(done, k)
  }

  lemma PutLength(done: seq<(Value, Value)>, k: Value, v: Value)
    ensures PutEntry(done, k, v) == done + [(k, v)] || (Repeats(done, k) && |PutEntry(done, k, v)| == |done|)
    ensures !Repeats(done, k) ==> PutEntry(done, k, v) == done + [(k, v)]
  {}

  lemma {:induction false} CanonicalEntries(key: Codec, value: Codec, count: nat, bs: seq<byte>,
                                            done: seq<(Value, Value)>)
    requires WellFormed(Map(key, value)) && ReadEntries(key, value, count, bs, done).Ok?
    ensures var (es, rest) := ReadEntries(key, value, count, bs, done).value;
            && |done| <= |es| <= |done| + count
            && (|es| == |done| + count ==> es[..|done|] == done)
            && (StrictEntries(key, value, count, bs, done) <==>
                  |es| == |done| + count && Gives(WriteEntries(key, value, es[|done|..]), rest, bs))
    decreases Map(key, value), 0, 1 + count
  {
    var (es, rest) := ReadEntries(key, value, count, bs, done).value;
    if count == 0 {
      assert es[|done|..] == [];
    } else {
      var (e, next) := ReadPair(key, value, bs).value;
      var put := PutEntry(done, e.0, e.1);
      PutLength(done, e.0, e.1);
      CanonicalEntries(key, value, count - 1, next, put);
      if !Repeats(done, e.0) && |es| == |done| + count {
        Extends(done, e, es);
        CanonicalPair(key, value, bs);
        PairSequenceGives(key, value, e, next, bs, WriteEntries(key, value, es[|done| + 1..]), rest);
      }
    }
  }

  lemma {:induction false} CanonicalMap(key: Codec, value: Codec, bs: seq<byte>)
    requires WellFormed(Map(key, value)) && Read(Map(key, value), bs).Ok?
    ensures var (v, rest) := Read(Map(key, value), bs).value;
            Gives(Write(Map(key, value), v), rest, bs) <==> Strict(Map(key, value), bs)
    decreases Map(key, value), 0, 2 + ReadUnsigned(bs, 4).value.0
  {
    var (count, next) := ReadUnsigned(bs, 4).value;
    var (es, rest) := ReadEntries(key, value, count, next, []).value;
    CanonicalEntries(key, value, count, next, []);
    assert es[0..] == es;
    CountedGives(count, next, bs, WriteEntries(key, value, es), rest);
    if |es| < count && WriteUnsigned(|es|, 4).Ok? && WriteEntries(key, value, es).Ok? {
      CountDiffers(count, |es|, next, bs, WriteEntries(key, value, es).value, rest);
    }
  }

  lemma CountDiffers(count: nat, n: nat, next: seq<byte>, bs: seq<byte>, body: seq<byte>, rest: seq<byte>)
    requires ReadUnsigned(bs, 4) == Ok((count, next))
    requires n != count && WriteUnsigned(n, 4).Ok?
    ensures WriteUnsigned(n, 4).value + body + rest != bs
  {
    var size := WriteUnsigned(n, 4).value;
    assert size + body + rest == size + (body + rest);
    ReadWrittenUnsigned(n, 4, body + rest);
  }
}
