/** Little-endian byte streams: a reading cursor and a write buffer that grows by doubling. */
module Streams {
  import opened Basics

  class ReadStream {
    const buf: seq<byte>
    var offset: nat

    ghost predicate Valid()
      reads this
    {
      offset <= |buf|
    }

    /** What has not been read yet. */
    ghost function Rest(): seq<byte>
      reads this
      requires Valid()
    {
      buf[offset..]
    }

    constructor (data: seq<byte>)
      ensures Valid() && Rest() == data
    {
      buf, offset := data, 0;
    }

    /** Reads `n` raw bytes; a stream that is too short is left where it was. */
    method Bytes(n: nat) returns (r: Result<seq<byte>>)
      requires Valid()
      modifies this
      ensures Valid()
      ensures Take(old(Rest()), n) == if r.Ok? then Ok((r.value, Rest())) else Err(r.error)
      ensures r.Err? ==> Rest() == old(Rest())
    {
      if n > |buf| - offset {
        return Err(StreamError);
      }
      var start := offset;
      offset := offset + n;
      r := Ok(buf[start..offset]);
      assert buf[start..][..n] == buf[start..offset] && buf[start..][n..] == buf[offset..];
    }

    /** Reads an unsigned integer of `width` bytes. */
    method Unsigned(width: nat) returns (r: Result<nat>)
      requires Valid()
      modifies this
      ensures Valid()
      ensures ReadUnsigned(old(Rest()), width) == if r.Ok? then Ok((r.value, Rest())) else Err(r.error)
      ensures r.Err? ==> Rest() == old(Rest())
    {
      var bytes := Bytes(width);
      if bytes.Err? {
        return Err(bytes.error);
      }
      r := Ok(FromLe(bytes.value));
    }

    /** Reads everything that is left. */
    method Remainder() returns (bytes: seq<byte>)
      requires Valid()
      modifies this
      ensures Valid() && bytes == old(Rest()) && Rest() == []
    {
      bytes := buf[offset..];
      offset := |buf|;
    }
  }

  function Max(a: int, b: int): int {
    if a > b then a else b
  }

  class WriteStream {
    var buf: array<byte>
    var length: nat
    /** Capacity at creation, and bytes moved by all growth so far. */
    ghost const initial: nat
    ghost var copied: nat

    /** The capacity is at most twice the contents, and growing has moved fewer bytes than it has gained. */
    ghost predicate Valid()
      reads this
    {
      && length <= buf.Length
      && initial <= buf.Length <= Max(initial, 2 * length)
      && copied <= buf.Length - initial
    }

    ghost function Contents(): seq<byte>
      reads this, buf
      requires Valid()
    {
      buf[..length]
    }

    constructor (initialCapacity: nat)
      ensures Valid() && fresh(buf)
      ensures Contents() == [] && initial == initialCapacity
    {
      buf := new byte[initialCapacity];
      length, initial, copied := 0, initialCapacity, 0;
    }

    /** Makes room for `n` more bytes and returns where they go. */
    method Reserve(n: nat) returns (start: nat)
      requires Valid()
      modifies this
      ensures Valid() && (buf == old(buf) || fresh(buf))
      ensures start == old(length) && length == start + n
      ensures buf[..start] == old(Contents())
    {
      var required := length + n;
      if required > buf.Length {
        var next := new byte[Max(required, 2 * buf.Length)];
        forall i | 0 <= i < length {
          next[i] := buf[i];
        }
        copied := copied + length;
        buf := next;
      }
      start := length;
      length := required;
    }

    method Bytes(data: seq<byte>)
      requires Valid()
      modifies this, buf
      ensures Valid() && (buf == old(buf) || fresh(buf))
      ensures Contents() == old(Contents()) + data
    {
      var at := Reserve(|data|);
      forall i | 0 <= i < |data| {
        buf[at + i] := data[i];
      }
    }

    /** Writes an unsigned integer of `width` bytes, or throws after making room for it. */
    method Unsigned(v: int, width: nat) returns (r: Result<()>)
      requires Valid()
      modifies this, buf
      ensures Valid() && (buf == old(buf) || fresh(buf))
      ensures r == if 0 <= v < Pow256(width) then Ok(()) else Err(RangeError)
      ensures r.Ok? ==> Contents() == old(Contents()) + Le(v, width)
    {
      if v < 0 || v >= Pow256(width) {
        var _ := Reserve(width);
        return Err(RangeError);
      }
      Bytes(Le(v, width));
      r := Ok(());
    }

    method ToBuffer() returns (bytes: seq<byte>)
      requires Valid()
      ensures bytes == Contents()
    {
      bytes := buf[..length];
    }
  }

  /**
   * Writes any sequence of chunks to a new stream. The result is their concatenation, and however
   * often the buffer grew, at most twice as many bytes were moved as were written.
   */
  method WriteAll(chunks: seq<seq<byte>>) returns (bytes: seq<byte>, ghost moved: nat)
    ensures bytes == Concat(chunks)
    ensures moved <= 2 * |bytes|
  {
    var stream := new WriteStream(64);
    for i := 0 to |chunks|
      invariant stream.Valid() && fresh(stream) && fresh(stream.buf) && stream.initial == 64
      invariant stream.Contents() == Concat(chunks[..i])
    {
      stream.Bytes(chunks[i]);
      assert chunks[..i + 1][..i] == chunks[..i];
    }
    assert chunks[..|chunks|] == chunks;
    bytes := stream.ToBuffer();
    moved := stream.copied;
  }

  function Concat(chunks: seq<seq<byte>>): seq<byte> {
    if chunks == [] then [] else Concat(chunks[..|chunks| - 1]) + chunks[|chunks| - 1]
  }
}
