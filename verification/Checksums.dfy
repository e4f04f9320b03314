/** The packet checksum, its wrapping loops, and which byte errors it catches. */
module Checksums {
  import opened Basics

  // ---- specification ----

  /** Number of bytes covered by whole words. */
  function Aligned(data: seq<byte>): (n: nat)
    ensures n <= |data|
  {
    4 * (|data| / 4)
  }

  function Word(data: seq<byte>, i: nat): nat
    requires i + 4 <= |data|
  {
    var b0: int, b1: int, b2: int, b3: int := data[i], data[i + 1], data[i + 2], data[i + 3];
    b0 + 0x100 * b1 + 0x1_0000 * b2 + 0x100_0000 * b3
  }

  /** The unbounded sum of the first `n` little-endian words. */
  function WordSum(data: seq<byte>, n: nat): nat
    requires 4 * n <= |data|
  {
    if n == 0 then 0 else WordSum(data, n - 1) + Word(data, 4 * (n - 1))
  }

  function ByteSum(data: seq<byte>): nat {
    if data == [] then 0 else ByteSum(data[..|data| - 1]) + data[|data| - 1]
  }

  /** The sum of the `k` low base-256 digits of `w`. */
  function DigitSum(w: nat, k: nat): nat
    decreases w, k
  {
    if k == 0 then 0 else w % 256 + DigitSum(w / 256, k - 1)
  }

  function Checksum(key: nat, data: seq<byte>): byte {
    (DigitSum(WordSum(data, |data| / 4), 4) + key % 256 + ByteSum(data[Aligned(data)..])) % 256
  }

  // ---- the loops of the original ----

  lemma DigitStep(w: nat, t: nat)
    ensures (w + 256 * t) % 256 == w % 256 && (w + 256 * t) / 256 == w / 256 + t
  {}

  /** Adding to the lowest digit either stays in it or carries one into the next. */
  lemma DigitCarry(w: nat, d: byte)
    ensures w % 256 + d < 256 ==> (w + d) % 256 == w % 256 + d && (w + d) / 256 == w / 256
    ensures w % 256 + d >= 256 ==> (w + d) % 256 == w % 256 + d - 256 && (w + d) / 256 == w / 256 + 1
  {}

  lemma LowestDigit(w: nat, k: nat)
    requires k > 0
    ensures DigitSum(w, k) == w % 256 + DigitSum(w / 256, k - 1)
  {}

  lemma NoDigits(w: nat)
    ensures DigitSum(w, 0) == 0
  {}

  lemma {:induction false} DigitSumLow(r: nat, q: nat, k: nat)
    ensures DigitSum(r + Pow256(k) * q, k) == DigitSum(r, k)
    decreases k
  {
    hide DigitSum, Pow256;
    if k == 0 {
      NoDigits(r);
      NoDigits(r + Pow256(0) * q);
    } else {
      var t := Pow256(k - 1) * q;
      ShiftedPower(q, k);
      DigitStep(r, t);
      LowestDigit(r, k);
      LowestDigit(r + 256 * t, k);
      DigitSumLow(r / 256, q, k - 1);
    }
  }

  /** Reducing a sum modulo 2^32 does not change its four low digits. */
  lemma DigitSumWraps(w: nat)
    ensures DigitSum(w % 0x1_0000_0000, 4) == DigitSum(w, 4)
  {
    Widths();
    DigitSumLow(w % 0x1_0000_0000, w / 0x1_0000_0000, 4);
  }

  lemma DigitSum4(w: u32)
    ensures DigitSum(w, 4) == w % 256 + w / 0x100 % 256 + w / 0x1_0000 % 256 + w / 0x100_0000
  {
    var w1 := w / 256;
    var w2 := w1 / 256;
    var w3 := w2 / 256;
    assert DigitSum(w3, 1) == w3 % 256 + DigitSum(w3 / 256, 0);
    assert DigitSum(w2, 2) == w2 % 256 + DigitSum(w3, 1);
    assert DigitSum(w1, 3) == w1 % 256 + DigitSum(w2, 2);
    assert w2 == w / 0x1_0000 && w3 == w / 0x100_0000 && w3 < 256;
  }

  lemma EmptyWordSum(data: seq<byte>)
    ensures WordSum(data, 0) == 0
  {}

  lemma WordSumNext(data: seq<byte>, n: nat)
    requires 4 * n + 4 <= |data|
    ensures WordSum(data, n + 1) == WordSum(data, n) + Word(data, 4 * n)
  {}

  lemma ByteSumNext(data: seq<byte>, b: byte)
    ensures ByteSum(data + [b]) == ByteSum(data) + b
  {
    assert (data + [b])[..|data|] == data;
  }

  lemma AddWrapped(a: nat, b: nat)
    ensures (a % 0x1_0000_0000 + b) % 0x1_0000_0000 == (a + b) % 0x1_0000_0000
  {}

  method SumWords(data: seq<byte>, aligned: nat) returns (words: u32)
    requires aligned == Aligned(data)
    ensures words == WordSum(data, |data| / 4) % 0x1_0000_0000
  {
    hide Word, WordSum;
    EmptyWordSum(data);
    words := 0;
    var i := 0;
    while i < aligned
      invariant 0 <= i <= aligned && i % 4 == 0
      invariant words == WordSum(data, i / 4) % 0x1_0000_0000
    {
      WordSumNext(data, i / 4);
      AddWrapped(WordSum(data, i / 4), Word(data, i));
      words := (words + Word(data, i)) % 0x1_0000_0000;
      i := i + 4;
    }
  }

  method CalcChecksum(key: nat, data: seq<byte>) returns (checksum: byte)
    ensures checksum == Checksum(key, data)
  {
    var aligned := |data| - |data| % 4;
    var words := SumWords(data, aligned);
    var sum := words % 256 + words / 0x100 % 256 + words / 0x1_0000 % 256 + words / 0x100_0000 + key % 256;
    DigitSum4(words);
    DigitSumWraps(WordSum(data, |data| / 4));
    ghost var folded := sum;
    ghost var tail := data[aligned..];
    for n := aligned to |data|
      invariant sum == folded + ByteSum(tail[..n - aligned])
    {
      sum := sum + data[n];
      assert tail[..n - aligned + 1][..n - aligned] == tail[..n - aligned];
    }
    assert tail[..|data| - aligned] == tail;
    checksum := sum % 256;
  }

  // ---- which single-byte errors it catches ----

  /** How much adding one to `w` raises its digit sum modulo 256: one for every carry that is not lost. */
  function Increment(w: nat, k: nat): (e: nat)
    ensures e <= k
    decreases w, k
  {
    if k == 0 then 0 else if w % 256 < 255 then 1 else 1 + Increment(w / 256, k - 1)
  }

  /** How much adding `d` to digit `lane` of `w` raises the sum of its `k` low digits modulo 256. */
  function Raise(w: nat, k: nat, lane: nat, d: byte): (e: nat)
    requires lane < k
    ensures d <= e < d + k
    decreases w, k
  {
    if lane > 0 then Raise(w / 256, k - 1, lane - 1, d)
    else if w % 256 + d < 256 then d
    else d + Increment(w / 256, k - 1)
  }

  lemma {:induction false} IncrementExact(w: nat, k: nat) returns (carries: int)
    ensures DigitSum(w + 1, k) == DigitSum(w, k) + Increment(w, k) - 256 * carries
    decreases k
  {
    if k == 0 {
      carries := 0;
    } else if w % 256 < 255 {
      carries := 0;
      DigitCarry(w, 1);
    } else {
      var rest := IncrementExact(w / 256, k - 1);
      carries := rest + 1;
      DigitCarry(w, 1);
    }
  }

  lemma {:induction false} RaiseExact(w: nat, k: nat, lane: nat, d: byte) returns (carries: int)
    requires lane < k
    ensures DigitSum(w + d * Pow256(lane), k) == DigitSum(w, k) + Raise(w, k, lane, d) - 256 * carries
    decreases k
  {
    hide DigitSum, Raise, Pow256;
    if lane == 0 {
      carries := RaiseLowest(w, k, d);
    } else {
      var t := d * Pow256(lane - 1);
      ShiftedPower(d, lane);
      DigitStep(w, t);
      LowestDigit(w, k);
      LowestDigit(w + 256 * t, k);
      RaiseAbove(w, k, lane, d);
      carries := RaiseExact(w / 256, k - 1, lane - 1, d);
    }
  }

  lemma RaiseAbove(w: nat, k: nat, lane: nat, d: byte)
    requires 0 < lane < k
    ensures Raise(w, k, lane, d) == Raise(w / 256, k - 1, lane - 1, d)
  {}

  lemma ShiftedPower(d: nat, lane: nat)
    requires lane > 0
    ensures d * Pow256(lane) == 256 * (d * Pow256(lane - 1))
  {
    var p := Pow256(lane - 1);
    assert Pow256(lane) == 256 * p;
    assert d * (256 * p) == 256 * (d * p);
  }

  lemma RaiseLowest(w: nat, k: nat, d: byte) returns (carries: int)
    requires 0 < k
    ensures DigitSum(w + d * Pow256(0), k) == DigitSum(w, k) + Raise(w, k, 0, d) - 256 * carries
  {
    assert d * Pow256(0) == d;
    DigitCarry(w, d);
    if w % 256 + d < 256 {
      carries := 0;
    } else {
      var rest := IncrementExact(w / 256, k - 1);
      carries := rest + 1;
    }
  }

  lemma WordUpdate(data: seq<byte>, n: nat, at: nat, b: byte)
    requires 4 * n + 4 <= |data| && at < |data|
    ensures Word(data[at := b], 4 * n) ==
            Word(data, 4 * n) + (if at / 4 == n then (b - data[at]) * Pow256(at % 4) else 0)
  {
    assert Pow256(0) == 1 && Pow256(1) == 0x100 && Pow256(2) == 0x1_0000 && Pow256(3) == 0x100_0000;
    if at / 4 == n {
      assert at == 4 * n || at == 4 * n + 1 || at == 4 * n + 2 || at == 4 * n + 3;
    }
  }

  lemma {:induction false} WordSumUpdate(data: seq<byte>, n: nat, at: nat, b: byte)
    requires 4 * n <= |data| && at < |data|
    ensures WordSum(data[at := b], n) ==
            WordSum(data, n) + (if at / 4 < n then (b - data[at]) * Pow256(at % 4) else 0)
  {
    if n == 0 {
    } else {
      WordSumUpdate(data, n - 1, at, b);
      WordUpdate(data, n - 1, at, b);
    }
  }

  lemma {:induction false} ByteSumUpdate(data: seq<byte>, at: nat, b: byte)
    requires at < |data|
    ensures ByteSum(data[at := b]) == ByteSum(data) + b - data[at]
  {
    var last := |data| - 1;
    if at == last {
      assert data[at := b][..last] == data[..last];
    } else {
      ByteSumUpdate(data[..last], at, b);
      assert data[at := b][..last] == data[..last][at := b];
    }
  }

  lemma NotMultiple(x: int, y: int, e: int, m: int)
    requires y == x + e - 256 * m && 0 < e < 512
    ensures y % 256 == x % 256 <==> e == 256
  {}

  lemma RaisedTailByte(key: nat, data: seq<byte>, at: nat, d: byte)
    requires Aligned(data) <= at < |data| && d > 0 && data[at] + d < 256
    ensures Checksum(key, data[at := data[at] + d]) != Checksum(key, data)
  {
    hide DigitSum, WordSum, ByteSum;
    var low, changed := Aligned(data), data[at := data[at] + d];
    WordSumUpdate(data, |data| / 4, at, data[at] + d);
    ByteSumUpdate(data[low..], at - low, data[at] + d);
    assert changed[low..] == data[low..][at - low := data[at] + d];
    var x := DigitSum(WordSum(data, |data| / 4), 4) + key % 256 + ByteSum(data[low..]);
    NotMultiple(x, x + d, d, 0);
  }

  lemma RaisedWordByte(key: nat, data: seq<byte>, at: nat, d: byte)
    requires at < Aligned(data) && d > 0 && data[at] + d < 256
    ensures Checksum(key, data[at := data[at] + d]) == Checksum(key, data)
            <==> Raise(WordSum(data, |data| / 4), 4, at % 4, d) == 256
  {
    hide Raise, DigitSum, WordSum, ByteSum;
    var low, changed := Aligned(data), data[at := data[at] + d];
    var w := WordSum(data, |data| / 4);
    WordSumUpdate(data, |data| / 4, at, data[at] + d);
    assert WordSum(changed, |data| / 4) == w + d * Pow256(at % 4);
    assert changed[low..] == data[low..];
    var carries := RaiseExact(w, 4, at % 4, d);
    var x := DigitSum(w, 4) + key % 256 + ByteSum(data[low..]);
    NotMultiple(x, x + Raise(w, 4, at % 4, d) - 256 * carries, Raise(w, 4, at % 4, d), carries);
  }

  /**
   * Raising one covered byte by `d` leaves the checksum unchanged exactly when the byte lies in a
   * word and the carries it causes in the sum of the words make up for the difference to 256.
   */
  lemma RaisedByte(key: nat, data: seq<byte>, at: nat, d: byte)
    requires at < |data| && d > 0 && data[at] + d < 256
    ensures Checksum(key, data[at := data[at] + d]) == Checksum(key, data)
            <==> at < Aligned(data) && Raise(WordSum(data, |data| / 4), 4, at % 4, d) == 256
  {
    if at < Aligned(data) {
      RaisedWordByte(key, data, at, d);
    } else {
      RaisedTailByte(key, data, at, d);
    }
  }

  /** Every change of one covered byte by at most 252, so every flipped bit, changes the checksum. */
  lemma SingleByteErrorDetected(key: nat, data: seq<byte>, at: nat, b: byte)
    requires at < |data| && b != data[at] && -252 <= b - data[at] <= 252
    ensures Checksum(key, data[at := b]) != Checksum(key, data)
  {
    if b > data[at] {
      RaisedByte(key, data, at, b - data[at]);
    } else {
      var changed := data[at := b];
      RaisedByte(key, changed, at, data[at] - b);
      assert changed[at := data[at]] == data;
    }
  }

  /** The bound 252 is tight: here a change by 253 goes unnoticed. */
  lemma BoundIsTight()
    ensures var data: seq<byte> := [0, 0, 0, 0, 3, 255, 255, 0];
            Checksum(0, data[0 := 253]) == Checksum(0, data)
  {
    var data: seq<byte> := [0, 0, 0, 0, 3, 255, 255, 0];
    assert Word(data, 0) == 0 && Word(data, 4) == 0xFFFF03;
    assert WordSum(data, 0) == 0 && WordSum(data, 1) == 0;
    assert WordSum(data, 2) == 0xFFFF03;
    assert Increment(0, 1) == 1;
    assert Increment(0xFF, 2) == 2;
    assert Increment(0xFFFF, 3) == 3;
    RaisedByte(0, data, 0, 253);
  }
}
