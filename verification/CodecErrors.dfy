/** Which exceptions codecs throw: reading only stream errors, writing never an RmcError. */
module CodecErrors {
  import opened Basics
  import T = Text
  import opened StationUrls
  import opened Codecs

  lemma {:induction false} ParamsFail(parts: seq<string>)
    ensures ParseParams(parts).Err? ==> ParseParams(parts).error == StreamError
  {
    if parts == [] {
    } else {
      ParamsFail(parts[..|parts| - 1]);
    }
  }

  lemma UrlFails(s: string)
    ensures ParseUrl(s).Err? ==> ParseUrl(s).error == StreamError
  {
    var end := SchemeEnd(s);
    if end.Some? {
      ParamsFail(T.Split(s[end.value + 2..], ';'));
    }
  }

  lemma PrimitiveFails(c: Primitive, bs: seq<byte>)
    ensures ReadOne(c, bs).Err? ==> ReadOne(c, bs).error == StreamError
  {
    hide ParseUrl;
    if c.Url? && ReadText(bs).Ok? {
      UrlFails(ReadText(bs).value.0);
    }
  }

  /** Whatever is wrong with what is read, the dispatcher sees a stream error and reports a parsing error. */
  lemma {:induction false} ReadFails(c: Codec, bs: seq<byte>)
    ensures Read(c, bs).Err? ==> Read(c, bs).error == StreamError
    decreases c, 1, 0
  {
    match c
    case One(p) => PrimitiveFails(p, bs);
    case List(item) =>
      var count := ReadUnsigned(bs, 4);
      if count.Ok? {
        ItemsFail(item, count.value.0, count.value.1, []);
      }
    case Map(key, value) =>
      var count := ReadUnsigned(bs, 4);
      if count.Ok? {
        EntriesFail(key, value, count.value.0, count.value.1, []);
      }
    case Struct(fields) => FieldsFail(fields, bs, []);
    case Union(cases) =>
      var tag := ReadUnsigned(bs, 1);
      if tag.Ok? && tag.value.0 < |cases| {
        ReadFails(cases[tag.value.0], tag.value.1);
      }
    case Nested(inner) =>
      var b := ReadBuffer(bs, 4);
      if b.Ok? {
        ReadFails(inner, b.value.0);
      }
  }

  lemma {:induction false} ItemsFail(item: Codec, count: nat, bs: seq<byte>, done: seq<Value>)
    ensures ReadItems(item, count, bs, done).Err? ==>
              ReadItems(item, count, bs, done).error == StreamError
    decreases item, 2, count
  {
    hide Read;
    if count == 0 {
    } else {
      ReadFails(item, bs);
      var v := Read(item, bs);
      if v.Ok? {
        ItemsFail(item, count - 1, v.value.1, done + [v.value.0]);
      }
    }
  }

  lemma {:induction false} EntriesFail(key: Codec, value: Codec, count: nat, bs: seq<byte>,
                                       done: seq<(Value, Value)>)
    ensures ReadEntries(key, value, count, bs, done).Err? ==>
              ReadEntries(key, value, count, bs, done).error == StreamError
    decreases Map(key, value), 0, 1 + count
  {
    hide Read, PutEntry;
    if count == 0 {
    } else {
      ReadFails(key, bs);
      var k := Read(key, bs);
      if k.Ok? {
        ReadFails(value, k.value.1);
        var v := Read(value, k.value.1);
        if v.Ok? {
          EntriesFail(key, value, count - 1, v.value.1, PutEntry(done, k.value.0, v.value.0));
        }
      }
    }
  }

  lemma {:induction false} FieldsFail(fields: seq<Codec>, bs: seq<byte>, done: seq<Value>)
    ensures ReadFields(fields, bs, done).Err? ==> ReadFields(fields, bs, done).error == StreamError
    decreases fields, 0, 0
  {
    hide Read;
    if fields == [] {
    } else {
      ReadFails(fields[0], bs);
      var v := Read(fields[0], bs);
      if v.Ok? {
        FieldsFail(fields[1..], v.value.1, done + [v.value.0]);
      }
    }
  }

  lemma {:induction false} WriteFails(c: Codec, v: Value)
    ensures Write(c, v).Err? ==> !Write(c, v).error.RmcError?
    decreases c, 1, 0
  {
    match c
    case One(_) =>
    case List(item) =>
      if v.Items? {
        WriteItemsFails(item, v.items);
      }
    case Map(key, value) =>
      if v.Entries? {
        WriteEntriesFails(key, value, v.entries);
      }
    case Struct(fields) =>
      if v.Items? {
        WriteFieldsFails(fields, v.items);
      }
    case Union(cases) =>
      if v.Tagged? && v.tag < |cases| {
        WriteFails(cases[v.tag], v.content);
      }
    case Nested(inner) => WriteFails(inner, v);
  }

  lemma {:induction false} WriteItemsFails(item: Codec, vs: seq<Value>)
    ensures WriteItems(item, vs).Err? ==> !WriteItems(item, vs).error.RmcError?
    decreases item, 2, |vs|
  {
    hide Write;
    if vs == [] {
    } else {
      WriteFails(item, vs[0]);
      WriteItemsFails(item, vs[1..]);
    }
  }

  lemma {:induction false} WriteEntriesFails(key: Codec, value: Codec,
                                             es: seq<(Value, Value)>)
    ensures WriteEntries(key, value, es).Err? ==> !WriteEntries(key, value, es).error.RmcError?
    decreases Map(key, value), 0, 1 + |es|
  {
    hide Write;
    if es == [] {
    } else {
      WriteFails(key, es[0].0);
      WriteFails(value, es[0].1);
      WriteEntriesFails(key, value, es[1..]);
    }
  }

  lemma {:induction false} WriteFieldsFails(fields: seq<Codec>, vs: seq<Value>)
    ensures WriteFields(fields, vs).Err? ==> !WriteFields(fields, vs).error.RmcError?
    decreases fields, 0, 0
  {
    hide Write;
    if fields == [] || vs == [] {
    } else {
      WriteFails(fields[0], vs[0]);
      WriteFieldsFails(fields[1..], vs[1..]);
    }
  }
}
