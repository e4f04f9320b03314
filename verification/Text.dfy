/** UTF-8, decimal numbers, and splitting and joining strings. */
module Text {
  import opened Basics

  // ---- UTF-8 (RFC 3629, section 3); a Dafny char is a Unicode scalar value ----

  function EncodeChar(c: char): (bs: seq<byte>)
    ensures 0 < |bs|
  {
    var n := c as int;
    var n1 := n / 0x40;
    var n2 := n1 / 0x40;
    if n < 0x80 then [n]
    else if n < 0x800 then [0xC0 + n1, 0x80 + n % 0x40]
    else if n < 0x1_0000 then [0xE0 + n2, 0x80 + n1 % 0x40, 0x80 + n % 0x40]
    else [0xF0 + n2 / 0x40, 0x80 + n2 % 0x40, 0x80 + n1 % 0x40, 0x80 + n % 0x40]
  }

  predicate Continuation(b: byte) {
    0x80 <= b < 0xC0
  }

  predicate Scalar(n: int) {
    0 <= n < 0xD800 || 0xE000 <= n < 0x11_0000
  }

  /** Appends the six payload bits of a continuation byte. */
  function Append(n: int, b: byte): int {
    0x40 * n + (b as int - 0x80)
  }

  function Assemble(bs: seq<byte>): int {
    if |bs| == 1 then bs[0]
    else if |bs| == 2 then Append(bs[0] as int - 0xC0, bs[1])
    else if |bs| == 3 then Append(Append(bs[0] as int - 0xE0, bs[1]), bs[2])
    else if |bs| == 4 then Append(Append(Append(bs[0] as int - 0xF0, bs[1]), bs[2]), bs[3])
    else 0
  }

  /** Length of the sequence a lead byte announces; 0 for bytes that start none. */
  function SequenceLength(b: byte): nat {
    if b < 0x80 then 1 else if b < 0xC0 then 0 else if b < 0xE0 then 2 else if b < 0xF0 then 3
    else if b < 0xF8 then 4 else 0
  }

  /** The smallest scalar value that needs `k` bytes: shorter values are overlong. */
  function Smallest(k: nat): nat {
    if k == 2 then 0x80 else if k == 3 then 0x800 else if k == 4 then 0x1_0000 else 0
  }

  /** The first character of `bs` and its length, if `bs` starts with a well-formed sequence. */
  function DecodeChar(bs: seq<byte>): (r: Option<(char, nat)>)
    requires bs != []
    ensures r.Some? ==> 0 < r.value.1 <= |bs|
  {
    var k := SequenceLength(bs[0]);
    if 0 < k <= |bs| && (forall i :: 1 <= i < k ==> Continuation(bs[i]))
       && Smallest(k) <= Assemble(bs[..k]) && Scalar(Assemble(bs[..k]))
    then Some((Assemble(bs[..k]) as char, k)) else None
  }

  lemma AssembleEncodeChar(c: char)
    ensures var bs := EncodeChar(c);
            && SequenceLength(bs[0]) == |bs|
            && (forall i :: 1 <= i < |bs| ==> Continuation(bs[i]))
            && Smallest(|bs|) <= Assemble(bs) == c as int
  {}

  lemma DecodeEncodeChar(c: char, rest: seq<byte>)
    ensures DecodeChar(EncodeChar(c) + rest) == Some((c, |EncodeChar(c)|))
  {
    AssembleEncodeChar(c);
    var bs := EncodeChar(c);
    assert (bs + rest)[..|bs|] == bs;
  }

  lemma AppendSplits(n: nat, b: byte)
    requires Continuation(b)
    ensures Append(n, b) / 0x40 == n && Append(n, b) % 0x40 == b as int - 0x80
  {}

  lemma EncodeAssemble(bs: seq<byte>)
    requires 0 < |bs| == SequenceLength(bs[0])
    requires forall i :: 1 <= i < |bs| ==> Continuation(bs[i])
    requires Smallest(|bs|) <= Assemble(bs) && Scalar(Assemble(bs))
    ensures EncodeChar(Assemble(bs) as char) == bs
  {
    if |bs| == 2 {
      AppendSplits(bs[0] as int - 0xC0, bs[1]);
    } else if |bs| == 3 {
      var n := Append(bs[0] as int - 0xE0, bs[1]);
      AppendSplits(bs[0] as int - 0xE0, bs[1]);
      AppendSplits(n, bs[2]);
    } else if |bs| == 4 {
      var n := Append(bs[0] as int - 0xF0, bs[1]);
      AppendSplits(bs[0] as int - 0xF0, bs[1]);
      AppendSplits(n, bs[2]);
      AppendSplits(Append(n, bs[2]), bs[3]);
    }
  }

  lemma EncodeDecodeChar(bs: seq<byte>)
    requires bs != [] && DecodeChar(bs).Some?
    ensures var (c, k) := DecodeChar(bs).value; EncodeChar(c) == bs[..k]
  {
    EncodeAssemble(bs[..DecodeChar(bs).value.1]);
  }

  function Utf8(s: string): seq<byte> {
    if s == [] then [] else EncodeChar(s[0]) + Utf8(s[1..])
  }

  function FromUtf8(bs: seq<byte>): Option<string> {
    if bs == [] then Some([]) else
    match DecodeChar(bs)
    case None => None
    case Some((c, k)) =>
      match FromUtf8(bs[k..])
      case None => None
      case Some(s) => Some([c] + s)
  }

  lemma {:induction false} FromUtf8Utf8(s: string)
    ensures FromUtf8(Utf8(s)) == Some(s)
  {
    if s == [] {
    } else {
      var head, tail := EncodeChar(s[0]), Utf8(s[1..]);
      DecodeEncodeChar(s[0], tail);
      FromUtf8Utf8(s[1..]);
      assert (head + tail)[|head|..] == tail;
      assert s == [s[0]] + s[1..];
    }
  }

  lemma Utf8Step(bs: seq<byte>, c: char, k: nat, tail: string)
    requires bs != [] && DecodeChar(bs) == Some((c, k)) && Utf8(tail) == bs[k..]
    ensures Utf8([c] + tail) == bs
  {
    EncodeDecodeChar(bs);
    assert ([c] + tail)[1..] == tail;
  }

  /** A decoder that rejects everything malformed accepts only what the encoder writes. */
  lemma {:induction false} Utf8FromUtf8(bs: seq<byte>)
    requires FromUtf8(bs).Some?
    ensures Utf8(FromUtf8(bs).value) == bs
    decreases |bs|
  {
    if bs == [] {
    } else {
      var (c, k) := DecodeChar(bs).value;
      Utf8FromUtf8(bs[k..]);
      Utf8Step(bs, c, k, FromUtf8(bs[k..]).value);
    }
  }

  lemma {:induction false} Utf8Nul(s: string)
    ensures 0 in Utf8(s) <==> '\0' in s
  {
    if s == [] {
    } else {
      Utf8Nul(s[1..]);
      assert 0 in EncodeChar(s[0]) <==> s[0] == '\0';
      assert s == [s[0]] + s[1..];
    }
  }

  lemma {:induction false} Utf8Empty(s: string)
    ensures Utf8(s) == [] <==> s == []
  {
    if s == [] {
    } else {
      assert Utf8(s) == EncodeChar(s[0]) + Utf8(s[1..]);
    }
  }

  // ---- decimal numbers ----

  predicate IsDigit(c: char) {
    '0' <= c <= '9'
  }

  predicate AllDigits(s: string) {
    forall i :: 0 <= i < |s| ==> IsDigit(s[i])
  }

  function DigitChar(d: nat): (c: char)
    requires d < 10
    ensures IsDigit(c)
  {
    (d + 48) as char
  }

  /** A number as it is printed: no sign, no leading zeros. */
  function Digits(n: nat): (s: string)
    ensures 0 < |s| && AllDigits(s)
  {
    if n < 10 then [DigitChar(n)] else Digits(n / 10) + [DigitChar(n % 10)]
  }

  function ParseDigits(s: string): nat
    requires AllDigits(s)
  {
    if s == [] then 0 else 10 * ParseDigits(s[..|s| - 1]) + (s[|s| - 1] as int - 48)
  }

  lemma {:induction false} ParseDigitsDigits(n: nat)
    ensures ParseDigits(Digits(n)) == n
  {
    var s := Digits(n);
    if n < 10 {
      assert s[..|s| - 1] == [];
    } else {
      ParseDigitsDigits(n / 10);
      assert s[..|s| - 1] == Digits(n / 10);
    }
  }

  /** Digits, and a leading zero only in zero itself. */
  predicate Plain(s: string) {
    s != [] && AllDigits(s) && (s[0] != '0' || |s| == 1)
  }

  lemma {:induction false} DigitsPlain(n: nat)
    ensures Plain(Digits(n)) && (Digits(n)[0] == '0' ==> n == 0)
  {
    if n < 10 {
    } else {
      DigitsPlain(n / 10);
    }
  }

  /** The plain spelling of a number is the one that is printed. */
  lemma {:induction false} PlainDigits(s: string)
    requires Plain(s)
    ensures Digits(ParseDigits(s)) == s
  {
    var init, last := s[..|s| - 1], s[|s| - 1];
    assert s == init + [last];
    LastDigit(last);
    if |s| == 1 {
      assert ParseDigits(s) == 10 * ParseDigits([]) + (last as int - 48);
    } else {
      PlainDigits(init);
      var m := ParseDigits(init);
      assert m > 0 by {
        assert init[0] == s[0] && s[0] != '0';
        assert Digits(0) == ['0'];
      }
      TenFold(m, last as int - 48);
    }
  }

  lemma LastDigit(c: char)
    requires IsDigit(c)
    ensures 0 <= c as int - 48 < 10 && DigitChar(c as int - 48) == c
  {}

  lemma TenFold(m: nat, d: nat)
    requires m > 0 && d < 10
    ensures Digits(10 * m + d) == Digits(m) + [DigitChar(d)]
  {
    assert (10 * m + d) / 10 == m && (10 * m + d) % 10 == d;
  }

  lemma DigitsOnly(n: nat, c: char)
    requires !IsDigit(c)
    ensures c !in Digits(n)
  {
    assert forall k :: 0 <= k < |Digits(n)| ==> IsDigit(Digits(n)[k]);
  }

  // ---- searching, splitting, joining ----

  /** The first position of `c`, or the length of `s` when it does not occur. */
  function IndexOf(s: string, c: char): (i: nat)
    ensures i <= |s|
    ensures c !in s[..i]
    ensures i < |s| ==> s[i] == c
  {
    if s == [] || s[0] == c then 0 else
    var i := IndexOf(s[1..], c) + 1;
    assert s[..i] == [s[0]] + s[1..][..i - 1];
    i
  }

  lemma IndexOfPrefix(a: string, c: char, b: string)
    requires c !in a
    ensures IndexOf(a + [c] + b, c) == |a|
  {
    var s := a + [c] + b;
    var i := IndexOf(s, c);
    assert forall k :: 0 <= k < |a| ==> s[k] == a[k] && a[k] in a;
    assert s[|a|] == c;
    assert forall k :: 0 <= k < i ==> s[k] == s[..i][k] && s[..i][k] in s[..i];
  }

  function Split(s: string, sep: char): (parts: seq<string>)
    ensures 0 < |parts|
  {
    if s == [] then [[]] else
    var rest := Split(s[1..], sep);
    if s[0] == sep then [[]] + rest else [[s[0]] + rest[0]] + rest[1..]
  }

  function Join(parts: seq<string>, sep: char): string {
    if parts == [] then [] else if |parts| == 1 then parts[0] else parts[0] + [sep] + Join(parts[1..], sep)
  }

  lemma {:induction false} SplitWhole(a: string, sep: char)
    requires sep !in a
    ensures Split(a, sep) == [a]
  {
    if a == [] {
    } else {
      SplitWhole(a[1..], sep);
      assert a == [a[0]] + a[1..];
    }
  }

  lemma {:induction false} SplitFirst(a: string, sep: char, b: string)
    requires sep !in a
    ensures Split(a + [sep] + b, sep) == [a] + Split(b, sep)
  {
    var s := a + [sep] + b;
    if a == [] {
      assert s[1..] == b;
    } else {
      SplitFirst(a[1..], sep, b);
      assert s[1..] == a[1..] + [sep] + b;
      assert a == [a[0]] + a[1..];
    }
  }

  ghost predicate NoneContains(parts: seq<string>, sep: char) {
    forall i :: 0 <= i < |parts| ==> sep !in parts[i]
  }

  lemma {:induction false} SplitJoin(parts: seq<string>, sep: char)
    requires parts != [] && NoneContains(parts, sep)
    ensures Split(Join(parts, sep), sep) == parts
  {
    if |parts| == 1 {
      SplitWhole(parts[0], sep);
    } else {
      SplitJoin(parts[1..], sep);
      SplitFirst(parts[0], sep, Join(parts[1..], sep));
      assert parts == [parts[0]] + parts[1..];
    }
  }

  lemma {:induction false} SplitParts(s: string, sep: char)
    ensures NoneContains(Split(s, sep), sep)
  {
    if s == [] {
    } else {
      SplitParts(s[1..], sep);
    }
  }

  /** Splitting loses nothing: joining the parts gives the text back. */
  lemma {:induction false} JoinSplit(s: string, sep: char)
    ensures Join(Split(s, sep), sep) == s
  {
    if s == [] {
    } else {
      var rest := Split(s[1..], sep);
      JoinSplit(s[1..], sep);
      if s[0] == sep {
        assert ([[]] + rest)[1..] == rest;
        assert s == [sep] + s[1..];
      } else {
        var parts := [[s[0]] + rest[0]] + rest[1..];
        assert parts[1..] == rest[1..];
        assert s == [s[0]] + s[1..];
        if |rest| > 1 {
          Grouped(s[0], rest[0], [sep] + Join(rest[1..], sep));
        }
      }
    }
  }

  lemma Grouped(c: char, a: string, b: string)
    ensures ([c] + a) + b == [c] + (a + b)
  {}
}
