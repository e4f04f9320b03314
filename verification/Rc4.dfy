/** RC4: the keystream as a value (the specification) and the generator that swaps its array in place. */
module Rc4 {
  import opened Basics

  const N := 256

  // ---- specification ----

  ghost predicate IsPermutation(s: seq<byte>) {
    && |s| == N
    && (forall a, b :: 0 <= a < b < N ==> s[a] != s[b])
    && (forall v: byte :: v in s)
  }

  function Swap(s: seq<byte>, a: nat, b: nat): (t: seq<byte>)
    requires a < |s| && b < |s|
  {
    s[a := s[b]][b := s[a]]
  }

  lemma SwapPermutes(s: seq<byte>, a: nat, b: nat)
    requires IsPermutation(s) && a < N && b < N
    ensures IsPermutation(Swap(s, a, b))
  {
    var t := Swap(s, a, b);
    forall v: byte ensures v in t {
      assert v in s;
      var k :| 0 <= k < |s| && s[k] == v;
      assert t[if k == a then b else if k == b then a else k] == v;
    }
  }

  function Identity(): (s: seq<byte>)
    ensures |s| == N
  {
    seq(N, i requires 0 <= i < N => i)
  }

  lemma IdentityPermutes()
    ensures IsPermutation(Identity())
  {
    forall v: byte ensures v in Identity() {
      assert Identity()[v] == v;
    }
  }

  predicate ValidKey(key: seq<byte>) {
    0 < |key| <= N
  }

  /** The key byte of round `n`; a short key starts over. */
  function KeyByte(key: seq<byte>, n: nat): byte
    requires key != []
  {
    key[n % |key|]
  }

  /** The array and index after `n` rounds of the key schedule. */
  function Schedule(key: seq<byte>, n: nat): (r: (seq<byte>, byte))
    requires ValidKey(key) && n <= N
    ensures |r.0| == N
    decreases key, n
  {
    if n == 0 then (Identity(), 0) else
    var (s, j) := Schedule(key, n - 1);
    var j' := (j + s[n - 1] + KeyByte(key, n - 1)) % 256;
    (Swap(s, n - 1, j'), j')
  }

  lemma {:induction false} SchedulePermutes(key: seq<byte>, n: nat)
    requires ValidKey(key) && n <= N
    ensures IsPermutation(Schedule(key, n).0)
  {
    if n == 0 {
      IdentityPermutes();
    } else {
      SchedulePermutes(key, n - 1);
      var (s, j) := Schedule(key, n - 1);
      SwapPermutes(s, n - 1, (j + s[n - 1] + KeyByte(key, n - 1)) % 256);
    }
  }

  type Table = s: seq<byte> | |s| == 256 witness Identity()

  datatype Keystream = Keystream(i: byte, j: byte, s: Table)

  function Start(key: seq<byte>): Keystream
    requires ValidKey(key)
  {
    Keystream(0, 0, Schedule(key, N).0)
  }

  function Advance(k: Keystream): Keystream {
    var i := (k.i + 1) % 256;
    var j := (k.j + k.s[i]) % 256;
    Keystream(i, j, Swap(k.s, i, j))
  }

  function Output(k: Keystream): byte {
    var at := k.s[k.i] as int + k.s[k.j] as int;
    k.s[at % 256]
  }

  /** `data` combined with the keystream, and the keystream that is left. */
  function Apply(k: Keystream, data: seq<byte>): (r: (Keystream, seq<byte>))
    ensures |r.1| == |data|
  {
    if data == [] then (k, []) else
    var (k', out) := Apply(k, data[..|data| - 1]);
    var k'' := Advance(k');
    (k'', out + [Xor(data[|data| - 1], Output(k''))])
  }

  function Crypt(key: seq<byte>, data: seq<byte>): (r: Result<seq<byte>>)
    ensures r.Ok? <==> ValidKey(key)
    ensures r.Ok? ==> |r.value| == |data|
  {
    if ValidKey(key) then Ok(Apply(Start(key), data).1) else Err(PlainError)
  }

  // ---- properties ----

  /** Every table the generator ever holds is a permutation of the 256 byte values. */
  lemma {:induction false} ApplyPermutes(k: Keystream, data: seq<byte>)
    requires IsPermutation(k.s)
    ensures IsPermutation(Apply(k, data).0.s)
  {
    if data == [] {
    } else {
      ApplyPermutes(k, data[..|data| - 1]);
      var k' := Apply(k, data[..|data| - 1]).0;
      var i := (k'.i + 1) % 256;
      SwapPermutes(k'.s, i, (k'.j + k'.s[i]) % 256);
    }
  }

  /** The generator can be run backwards: no two states have the same successor. */
  lemma AdvanceInjective(a: Keystream, b: Keystream)
    requires IsPermutation(a.s) && IsPermutation(b.s)
    requires Advance(a) == Advance(b)
    ensures a == b
  {
    hide Swap, IsPermutation;
    var a', b' := Advance(a), Advance(b);
    SameSummand(a.i, b.i, 1);
    SwapBack(a.s, a'.i, a'.j);
    SwapBack(b.s, b'.i, b'.j);
    assert a.s == Swap(Swap(a.s, a'.i, a'.j), a'.i, a'.j) == b.s;
    SameSummand(a.j, b.j, a.s[a'.i]);
  }

  lemma SameSummand(x: byte, y: byte, c: byte)
    requires (x as int + c as int) % 256 == (y as int + c as int) % 256
    ensures x == y
  {}

  lemma SwapBack(s: seq<byte>, a: nat, b: nat)
    requires a < |s| && b < |s|
    ensures |Swap(s, a, b)| == |s| && Swap(Swap(s, a, b), a, b) == s
  {}

  lemma ApplySnoc(k: Keystream, data: seq<byte>, last: byte)
    ensures var (k', out) := Apply(k, data);
            Apply(k, data + [last]) == (Advance(k'), out + [Xor(last, Output(Advance(k')))])
  {
    assert (data + [last])[..|data|] == data;
  }

  lemma ApplyConcatStep(k: Keystream, a: seq<byte>, b: seq<byte>, last: byte)
    requires Apply(k, a + b) == (Apply(Apply(k, a).0, b).0, Apply(k, a).1 + Apply(Apply(k, a).0, b).1)
    ensures Apply(k, a + (b + [last])) ==
            (Apply(Apply(k, a).0, b + [last]).0, Apply(k, a).1 + Apply(Apply(k, a).0, b + [last]).1)
  {
    hide Apply, Advance, Output, Xor;
    var (k1, outA) := Apply(k, a);
    var (k2, outB) := Apply(k1, b);
    var x := Xor(last, Output(Advance(k2)));
    assert Apply(k, a + (b + [last])) == (Advance(k2), (outA + outB) + [x]) by {
      ApplySnoc(k, a + b, last);
      assert a + (b + [last]) == (a + b) + [last];
    }
    ApplySnoc(k1, b, last);
    assert (outA + outB) + [x] == outA + (outB + [x]);
  }

  lemma ApplyNothing(k: Keystream)
    ensures Apply(k, []) == (k, [])
  {}

  /** Applying one generator to two pieces is applying it to their concatenation. */
  lemma {:induction false} ApplyConcat(k: Keystream, a: seq<byte>, b: seq<byte>)
    ensures Apply(k, a + b) == (Apply(Apply(k, a).0, b).0, Apply(k, a).1 + Apply(Apply(k, a).0, b).1)
    decreases |b|
  {
    hide Apply, Advance, Output, Xor;
    if b == [] {
      ApplyNothing(Apply(k, a).0);
      assert a + b == a && Apply(k, a).1 + [] == Apply(k, a).1;
    } else {
      var init, last := b[..|b| - 1], b[|b| - 1];
      ApplyConcat(k, a, init);
      ApplyConcatStep(k, a, init, last);
      assert b == init + [last];
    }
  }

  lemma {:induction false} ApplyCancel(k: Keystream, data: seq<byte>)
    ensures Apply(k, Apply(k, data).1) == (Apply(k, data).0, data)
  {
    if data == [] {
    } else {
      var init := data[..|data| - 1];
      ApplyCancel(k, init);
      var (k', out) := Apply(k, init);
      var last := data[|data| - 1];
      var k'' := Advance(k');
      XorCancel(last, Output(k''));
      var c := Apply(k, data).1;
      assert c[..|c| - 1] == out;
      assert c[|c| - 1] == Xor(last, Output(k''));
      assert data == init + [last];
    }
  }

  /** Decryption is encryption with the same key, for every key length RC4 allows. */
  lemma CryptCancel(key: seq<byte>, data: seq<byte>)
    requires ValidKey(key)
    ensures Crypt(key, Crypt(key, data).value) == Ok(data)
  {
    ApplyCancel(Start(key), data);
  }

  // ---- how the generator depends on its key ----

  lemma ScheduleRound(key: seq<byte>, n: nat)
    requires ValidKey(key) && n < N
    ensures var (s, j) := Schedule(key, n);
            var j' := (j + s[n] + KeyByte(key, n)) % 256;
            Schedule(key, n + 1) == (Swap(s, n, j'), j')
  {}

  lemma EarlyByte(key: seq<byte>, n: nat)
    requires n < |key|
    ensures KeyByte(key, n) == key[n]
  {}

  lemma {:induction false} SamePrefixSameRounds(a: seq<byte>, b: seq<byte>, k: nat)
    requires ValidKey(a) && ValidKey(b) && |a| == |b| && k <= |a|
    requires forall i :: 0 <= i < k ==> a[i] == b[i]
    ensures Schedule(a, k) == Schedule(b, k)
    decreases k
  {
    hide Schedule, Swap, KeyByte;
    if k == 0 {
      FirstRound(a);
      FirstRound(b);
    } else {
      SamePrefixSameRounds(a, b, k - 1);
      ScheduleRound(a, k - 1);
      ScheduleRound(b, k - 1);
      EarlyByte(a, k - 1);
      EarlyByte(b, k - 1);
    }
  }

  lemma FirstRound(key: seq<byte>)
    requires ValidKey(key)
    ensures Schedule(key, 0) == (Identity(), 0)
  {}

  /**
   * The schedule reads its key in order: keys that first differ in byte `k` go through the same rounds
   * up to there, and then to indices that differ by as much.
   */
  lemma KeyBytesMatter(a: seq<byte>, b: seq<byte>, k: nat)
    requires ValidKey(a) && ValidKey(b) && |a| == |b| && k < |a|
    requires forall i :: 0 <= i < k ==> a[i] == b[i]
    ensures Schedule(a, k) == Schedule(b, k)
    ensures var x: int, y: int := a[k], b[k];
            (Schedule(a, k + 1).1 - Schedule(b, k + 1).1 - (x - y)) % 256 == 0
    ensures a[k] != b[k] ==> Schedule(a, k + 1) != Schedule(b, k + 1)
  {
    hide Schedule, Swap, KeyByte;
    SamePrefixSameRounds(a, b, k);
    ScheduleRound(a, k);
    ScheduleRound(b, k);
    EarlyByte(a, k);
    EarlyByte(b, k);
    var (s, j) := Schedule(a, k);
    Difference(j + s[k], a[k], b[k]);
  }

  lemma Difference(x: nat, a: int, b: int)
    requires 0 <= a < 256 && 0 <= b < 256
    ensures ((x + a) % 256 - (x + b) % 256 - (a - b)) % 256 == 0
    ensures a != b ==> (x + a) % 256 != (x + b) % 256
  {}

  /** The bytes a key gives to the first `n` rounds, over and over again. */
  function KeySum(key: seq<byte>, n: nat): nat
    requires key != []
  {
    if n == 0 then 0 else KeySum(key, n - 1) + key[(n - 1) % |key|]
  }

  /** The sum of the numbers below `n`. */
  function Triangle(n: nat): nat {
    n * (n - 1) / 2
  }

  /** No round before `n` has exchanged an entry that is still to be read before round `n` ends. */
  ghost predicate Undisturbed(key: seq<byte>, n: nat)
    requires ValidKey(key) && n <= N
  {
    forall m :: 1 <= m < n ==> Schedule(key, m).1 < m || Schedule(key, m).1 >= n
  }

  lemma SwapMoves(s: seq<byte>, a: nat, b: nat, i: nat)
    requires a < |s| && b < |s| && i < |s| && i != a
    ensures Swap(s, a, b)[i] == if i == b then s[a] else s[i]
    ensures Swap(s, a, b)[b] == s[a]
  {}

  lemma {:induction false} LaterEntriesStay(key: seq<byte>, n: nat, i: nat)
    requires ValidKey(key) && n <= i < N
    requires forall m :: 1 <= m <= n ==> Schedule(key, m).1 != i
    ensures Schedule(key, n).0[i] == i
    decreases n
  {
    hide Schedule, Swap, KeyByte;
    if n == 0 {
      FirstRound(key);
    } else {
      LaterEntriesStay(key, n - 1, i);
      ScheduleRound(key, n - 1);
      SwapMoves(Schedule(key, n - 1).0, n - 1, Schedule(key, n).1, i);
    }
  }

  /**
   * As long as no round has moved an entry that a later one reads, the index is the sum of the numbers
   * of the rounds and of the key bytes, and the entry it points to is the one the last round was for.
   */
  lemma {:induction false} IndexIsSum(key: seq<byte>, n: nat)
    requires ValidKey(key) && n <= N && Undisturbed(key, n)
    ensures Schedule(key, n).1 == (Triangle(n) + KeySum(key, n)) % 256
    ensures n > 0 ==> Schedule(key, n).0[Schedule(key, n).1] == n - 1
    decreases n
  {
    hide Schedule, Swap, KeyByte, KeySum, Triangle;
    if n == 0 {
      FirstRound(key);
      NoSum(key);
    } else {
      IndexIsSum(key, n - 1);
      ScheduleRound(key, n - 1);
      LaterEntriesStay(key, n - 1, n - 1);
      NextSum(key, n - 1);
      EntryMoves(key, n - 1);
    }
  }

  lemma EntryMoves(key: seq<byte>, n: nat)
    requires ValidKey(key) && n < N && Schedule(key, n).0[n] == n
    ensures Schedule(key, n + 1).0[Schedule(key, n + 1).1] == n
  {
    hide Schedule, KeyByte;
    ScheduleRound(key, n);
  }

  lemma NoSum(key: seq<byte>)
    requires key != []
    ensures Triangle(0) == 0 && KeySum(key, 0) == 0
  {}

  lemma NextSum(key: seq<byte>, n: nat)
    requires key != []
    ensures ((Triangle(n) + KeySum(key, n)) % 256 + n + KeyByte(key, n)) % 256 ==
            (Triangle(n + 1) + KeySum(key, n + 1)) % 256
  {
    hide KeyByte, KeySum, Triangle;
    NextTriangle(n);
    NextKeySum(key, n);
    AddReduced(Triangle(n) + KeySum(key, n), n + KeyByte(key, n));
  }

  lemma AddReduced(x: nat, y: nat)
    ensures (x % 256 + y) % 256 == (x + y) % 256
  {}

  lemma NextTriangle(n: nat)
    ensures Triangle(n + 1) == Triangle(n) + n
  {
    assert (n + 1) * n == n * (n - 1) + 2 * n;
  }

  lemma NextKeySum(key: seq<byte>, n: nat)
    requires key != []
    ensures KeySum(key, n + 1) == KeySum(key, n) + KeyByte(key, n)
  {}

  lemma {:induction false} XorNothing(a: nat, bits: nat)
    requires a < Pow2(bits)
    ensures XorBits(a, 0, bits) == a
    decreases bits
  {
    if bits == 0 {
    } else {
      XorNothing(a / 2, bits - 1);
    }
  }

  lemma FirstStep(s: Table)
    requires s[2] == 0 && s[1] != 2
    ensures var t := Swap(s, 1, s[1]);
            && Advance(Keystream(0, 0, s)) == Keystream(1, s[1], t) && |t| == 256 && t[2] == 0 && t[s[1]] == s[1]
  {
    SwapMoves(s, 1, s[1], 2);
  }

  lemma SecondStep(x: byte, t: Table)
    requires t[2] == 0 && t[x] == x && x != 2
    ensures var k := Advance(Keystream(1, x, t)); k.i == 2 && k.j == x && k.s[2] == x && k.s[x] == 0
  {
    SwapMoves(t, 2, x, x);
    assert (x + t[2]) % 256 == x;
  }

  lemma LastLookup(k: Keystream, x: byte)
    requires k.i == 2 && k.j == x && k.s[2] == x && k.s[x] == 0
    ensures Output(k) == 0
  {
    assert k.s[k.i] as int + k.s[k.j] as int == x;
  }

  /** From a table with 0 in place 2, and not 2 in place 1, the second byte of output is 0. */
  lemma SecondOutput(s: Table)
    requires s[2] == 0 && s[1] != 2
    ensures Output(Advance(Advance(Keystream(0, 0, s)))) == 0
  {
    hide Advance, Output, Swap;
    FirstStep(s);
    SecondStep(s[1], Swap(s, 1, s[1]));
    LastLookup(Advance(Advance(Keystream(0, 0, s))), s[1]);
  }

  /** So with such a table after its 256 rounds, a key leaves the second byte of any data as it is. */
  lemma SecondByteShows(key: seq<byte>, data: seq<byte>)
    requires ValidKey(key) && |data| >= 2
    requires Schedule(key, 256).0[2] == 0 && Schedule(key, 256).0[1] != 2
    ensures Crypt(key, data).value[1] == data[1]
  {
    hide Schedule, Advance, Output, Xor, Swap;
    var k := Start(key);
    ApplySnoc(k, [], data[0]);
    ApplySnoc(k, [data[0]], data[1]);
    ApplyNothing(k);
    assert [] + [data[0]] == [data[0]] && [data[0]] + [data[1]] == data[..2];
    assert data == data[..2] + data[2..];
    ApplyConcat(k, data[..2], data[2..]);
    SecondOutput(k.s);
    ZeroXor(data[1]);
  }

  lemma ZeroXor(b: byte)
    ensures Xor(b, 0) == b
  {
    Pow2Of8();
    XorNothing(b, 8);
  }

  // ---- the generator ----

  class Generator {
    var i: byte
    var j: byte
    const state: array<byte>

    ghost predicate Valid()
      reads this, state
    {
      state.Length == N && IsPermutation(state[..])
    }

    ghost function Abs(): Keystream
      reads this, state
      requires Valid()
    {
      Keystream(i, j, state[..])
    }

    constructor (key: seq<byte>)
      requires ValidKey(key)
      ensures Valid() && fresh(state)
      ensures Abs() == Start(key)
    {
      i, j := 0, 0;
      state := new byte[256];
      new;
      Reset();
      Mix(key);
    }

    method Reset()
      requires state.Length == N
      modifies state
      ensures state[..] == Identity()
    {
      for n := 0 to N
        invariant forall m :: 0 <= m < n ==> state[m] == m
      {
        state[n] := n;
      }
    }

    method Exchange(a: nat, b: nat)
      requires state.Length == N && a < N && b < N
      modifies state
      ensures state[..] == Swap(old(state[..]), a, b)
    {
      state[a], state[b] := state[b], state[a];
    }

    method Mix(key: seq<byte>)
      requires ValidKey(key) && state.Length == N && state[..] == Identity()
      modifies state
      ensures state[..] == Schedule(key, N).0 && IsPermutation(state[..])
    {
      hide Schedule, Swap, IsPermutation, Identity;
      FirstRound(key);
      var k: byte := 0;
      for n := 0 to N
        invariant state[..] == Schedule(key, n).0 && k == Schedule(key, n).1
      {
        ScheduleRound(key, n);
        k := (k + state[n] + key[n % |key|]) % 256;
        Exchange(n, k);
      }
      SchedulePermutes(key, N);
    }

    method Next() returns (b: byte)
      requires Valid()
      modifies this, state
      ensures Valid()
      ensures Abs() == Advance(old(Abs())) && b == Output(Abs())
    {
      hide Swap, IsPermutation;
      i := (i + 1) % 256;
      j := (j + state[i]) % 256;
      SwapPermutes(state[..], i, j);
      Exchange(i, j);
      var at := state[i] as int + state[j] as int;
      b := state[at % 256];
    }

    method ApplyTo(data: seq<byte>) returns (result: array<byte>)
      requires Valid()
      modifies this, state
      ensures Valid() && fresh(result)
      ensures Abs() == Apply(old(Abs()), data).0
      ensures result[..] == Apply(old(Abs()), data).1
    {
      hide Apply, Advance, Output, Xor, IsPermutation;
      result := new byte[|data|];
      ApplyNothing(Abs());
      for k := 0 to |data|
        invariant Valid()
        invariant Abs() == Apply(old(Abs()), data[..k]).0
        invariant result[..k] == Apply(old(Abs()), data[..k]).1
      {
        ApplySnoc(old(Abs()), data[..k], data[k]);
        var b := Next();
        result[k] := Xor(data[k], b);
        assert data[..k + 1] == data[..k] + [data[k]];
      }
      assert data[..|data|] == data;
    }
  }

  /** Encrypts or decrypts `data` with a fresh generator for `key`. */
  method CryptKey(key: seq<byte>, data: seq<byte>) returns (r: Result<seq<byte>>)
    ensures r == Crypt(key, data)
  {
    if |key| == 0 || |key| > 256 {
      return Err(PlainError);
    }
    var generator := new Generator(key);
    var result := generator.ApplyTo(data);
    r := Ok(result[..]);
  }
}
