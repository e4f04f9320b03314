/** Bytes, little-endian integers, exclusive or, and the result type for thrown errors. */
module Basics {

  type byte = n: int | 0 <= n < 0x100
  type u16 = n: int | 0 <= n < 0x1_0000
  type u32 = n: int | 0 <= n < 0x1_0000_0000

  datatype Option<+T> = None | Some(value: T)

  /** The exceptions of the original, by class. */
  datatype Error =
    | StreamError           // StreamError and StationURLParseError
    | RangeError            // a number that does not fit its field
    | TypeError             // a value of the wrong kind
    | PacketError
    | PlainError            // an Error of no particular class
    | RmcError(kind: RmcErrorKind)

  datatype RmcErrorKind =
    | MissingData | ParsingError | UnknownProtocol | UnknownMethod
    | UnimplementedMethod | InvalidPacketType | InternalError | AccessDenied

  datatype Result<+T> = Ok(value: T) | Err(error: Error) {
    predicate IsFailure() { Err? }

    function PropagateFailure<U>(): Result<U>
      requires Err?
    {
      Err(error)
    }

    function Extract(): T
      requires Ok?
    {
      value
    }
  }

  // ---- little-endian integers ----

  function Pow256(k: nat): (p: nat)
    ensures p > 0
  {
    if k == 0 then 1 else 256 * Pow256(k - 1)
  }

  /** The `k` low bytes of `n`, least significant first. */
  function Le(n: nat, k: nat): (bs: seq<byte>)
    ensures |bs| == k
    decreases k
  {
    if k == 0 then [] else [n % 256] + Le(n / 256, k - 1)
  }

  function FromLe(bs: seq<byte>): nat {
    if bs == [] then 0 else bs[0] + 256 * FromLe(bs[1..])
  }

  lemma Split256(low: byte, high: nat)
    ensures (low + 256 * high) % 256 == low && (low + 256 * high) / 256 == high
  {}

  lemma {:induction false} FromLeBound(bs: seq<byte>)
    ensures FromLe(bs) < Pow256(|bs|)
  {
    if bs == [] {
    } else {
      FromLeBound(bs[1..]);
    }
  }

  /** Writing a number and reading it back keeps its value modulo the width. */
  lemma {:induction false} FromLeLe(n: nat, k: nat)
    ensures n < Pow256(k) ==> FromLe(Le(n, k)) == n
    decreases k
  {
    if k == 0 {
    } else {
      FromLeLe(n / 256, k - 1);
      assert Le(n, k)[1..] == Le(n / 256, k - 1);
    }
  }

  /** Reading and writing back gives the same bytes: the encoding is canonical. */
  lemma {:induction false} LeFromLe(bs: seq<byte>)
    ensures Le(FromLe(bs), |bs|) == bs
  {
    if bs == [] {
    } else {
      LeFromLe(bs[1..]);
      Split256(bs[0], FromLe(bs[1..]));
    }
  }

  lemma Grows(d: int, m: nat)
    ensures d >= 1 ==> d * m >= m
    ensures d <= -1 ==> d * m + m <= 0
  {}

  lemma Quotient(n: nat, m: nat, b: int, r: nat)
    requires n == b * m + r && r < m
    ensures n / m == b
  {
    var x := n / m;
    assert n == x * m + n % m;
    assert (x - b) * m == x * m - b * m;
    Grows(x - b, m);
  }

  lemma DivideTwice(n: nat, d: nat, q: nat)
    requires d > 0 && q > 0
    ensures d * q > 0 && n / d / q == n / (d * q)
  {
    Grows(q, d);
    var a, r := n / d, n % d;
    Regrouped(n, d, q, a / q, a % q, r);
    Quotient(n, d * q, a / q, d * (a % q) + r);
  }

  lemma Regrouped(n: nat, d: nat, q: nat, b: int, t: nat, r: nat)
    requires n == d * (b * q + t) + r && t < q && r < d
    ensures n == b * (d * q) + (d * t + r) && d * t + r < d * q
  {
    assert d * (b * q + t) == d * (b * q) + d * t;
    assert d * (b * q) == b * (d * q);
    assert d * (t + 1) <= d * q by { Grows(q - t, d); assert (q - t) * d == d * q - d * t; }
  }

  /** Byte `i` of a number is its digit of weight 256 to the power of `i`. */
  lemma {:induction false} LeDigit(n: nat, k: nat, i: nat)
    requires i < k
    ensures Le(n, k)[i] == n / Pow256(i) % 256
    decreases k
  {
    if i == 0 {
    } else {
      LeDigit(n / 256, k - 1, i - 1);
      DivideTwice(n, 256, Pow256(i - 1));
    }
  }

  lemma Widths()
    ensures Pow256(1) == 0x100
    ensures Pow256(2) == 0x1_0000
    ensures Pow256(4) == 0x1_0000_0000
    ensures Pow256(8) == 0x1_0000_0000_0000_0000
  {
    assert Pow256(2) == 256 * Pow256(1);
    assert Pow256(3) == 256 * Pow256(2);
    assert Pow256(4) == 256 * Pow256(3);
    assert Pow256(5) == 256 * Pow256(4);
    assert Pow256(6) == 256 * Pow256(5);
    assert Pow256(7) == 256 * Pow256(6);
  }

  lemma {:induction false} Le1(n: byte)
    ensures Le(n, 1) == [n] && FromLe([n]) == n
  {
    assert Le(n / 256, 0) == [];
    assert [n][1..] == [];
  }

  // ---- exclusive or, one bit at a time ----

  function XorBits(a: nat, b: nat, bits: nat): (x: nat)
    decreases a, bits
  {
    if bits == 0 then 0 else (a + b) % 2 + 2 * XorBits(a / 2, b / 2, bits - 1)
  }

  function Pow2(k: nat): (p: nat)
    ensures p > 0
  {
    if k == 0 then 1 else 2 * Pow2(k - 1)
  }

  lemma {:induction false} XorBitsBound(a: nat, b: nat, bits: nat)
    ensures XorBits(a, b, bits) < Pow2(bits)
    decreases bits
  {
    if bits == 0 {
    } else {
      XorBitsBound(a / 2, b / 2, bits - 1);
    }
  }

  lemma LowBit(a: nat, b: nat, high: nat)
    ensures var x := (a + b) % 2 + 2 * high;
            x / 2 == high && (x + b) % 2 == a % 2
  {}

  lemma {:induction false} XorBitsCancel(a: nat, b: nat, bits: nat)
    requires a < Pow2(bits)
    ensures XorBits(XorBits(a, b, bits), b, bits) == a
    decreases bits
  {
    if bits == 0 {
    } else {
      XorBitsCancel(a / 2, b / 2, bits - 1);
      LowBit(a, b, XorBits(a / 2, b / 2, bits - 1));
    }
  }

  lemma Pow2Of8()
    ensures Pow2(8) == 256
  {
    assert Pow2(4) == 16;
    assert Pow2(6) == 64;
  }

  function Xor(a: byte, b: byte): byte {
    XorBitsBound(a, b, 8);
    Pow2Of8();
    XorBits(a, b, 8)
  }

  lemma XorSplits(a: nat, b: nat, bits: nat)
    requires bits > 0
    ensures XorBits(a, b, bits) / 2 == XorBits(a / 2, b / 2, bits - 1)
    ensures XorBits(a, b, bits) % 2 == (a + b) % 2
  {
    LowBit(a, b, XorBits(a / 2, b / 2, bits - 1));
  }

  function Bit(n: nat, i: nat): nat {
    n / Pow2(i) % 2
  }

  lemma LowestBit(n: nat)
    ensures Bit(n, 0) == n % 2
  {}

  lemma HalfBit(n: nat, i: nat)
    requires i > 0
    ensures Bit(n, i) == Bit(n / 2, i - 1)
  {
    DivideTwice(n, 2, Pow2(i - 1));
  }

  /** Bit `i` of the result is set when it is set in one of the two and not in the other. */
  lemma {:induction false} XorBit(a: nat, b: nat, bits: nat, i: nat)
    requires i < bits
    ensures Bit(XorBits(a, b, bits), i) == (Bit(a, i) + Bit(b, i)) % 2
    decreases bits
  {
    hide XorBits, Bit;
    var x := XorBits(a, b, bits);
    XorSplits(a, b, bits);
    if i == 0 {
      LowestBit(a);
      LowestBit(b);
      LowestBit(x);
      SumParity(a, b);
    } else {
      XorBit(a / 2, b / 2, bits - 1, i - 1);
      HalfBit(x, i);
      HalfBit(a, i);
      HalfBit(b, i);
    }
  }

  lemma SumParity(a: nat, b: nat)
    ensures (a % 2 + b % 2) % 2 == (a + b) % 2
  {}

  lemma XorCancel(a: byte, b: byte)
    ensures Xor(Xor(a, b), b) == a
  {
    Pow2Of8();
    XorBitsCancel(a, b, 8);
  }

  // ---- splitting off a prefix ----

  function Take(bs: seq<byte>, n: nat): Result<(seq<byte>, seq<byte>)> {
    if n <= |bs| then Ok((bs[..n], bs[n..])) else Err(StreamError)
  }

  /** The little-endian number in the first `width` bytes. */
  function ReadUnsigned(bs: seq<byte>, width: nat): (r: Result<(nat, seq<byte>)>)
    ensures r.Ok? ==> r.value.0 < Pow256(width)
  {
    var (b, rest) :- Take(bs, width);
    FromLeBound(b);
    Ok((FromLe(b), rest))
  }

  lemma ReadLe(n: nat, width: nat, rest: seq<byte>)
    requires n < Pow256(width)
    ensures ReadUnsigned(Le(n, width) + rest, width) == Ok((n, rest))
  {
    TakeAppend(Le(n, width), rest);
    FromLeLe(n, width);
  }

  lemma Assoc<T>(a: seq<T>, b: seq<T>, c: seq<T>)
    ensures a + b + c == a + (b + c)
  {}

  lemma TakeAppend(a: seq<byte>, b: seq<byte>)
    ensures Take(a + b, |a|) == Ok((a, b))
  {
    assert (a + b)[..|a|] == a && (a + b)[|a|..] == b;
  }
}
