/** Keys derived from passwords, their cache, and the tickets sealed and encrypted with them. */
module Kerberos {
  import opened Basics
  import Rc4
  import T = Text
  import opened Packets
  import C = Codecs

  type Hash = seq<byte> -> seq<byte>

  /** MD5 and HMAC-MD5 (key, data). */
  datatype Hashes = Hashes(md5: Hash, hmac: (seq<byte>, seq<byte>) -> seq<byte>)

  const SESSION_KEY_SIZE := 16
  const MAC_SIZE := 16
  const NONCE_SIZE := 24
  const DEFAULT_PASSWORD := "UbiDummyPwd"
  const MAX_DERIVED_KEYS := 4096

  // ---- deriving keys ----

  function Iterate(hash: Hash, n: nat, data: seq<byte>): seq<byte>
    decreases n, hash
  {
    if n == 0 then data else hash(Iterate(hash, n - 1, data))
  }

  function Rounds(peerPid: u32): nat {
    65000 + peerPid % 1024
  }

  function Secret(password: Option<string>): string {
    if password.Some? then password.value else DEFAULT_PASSWORD
  }

  /** The plain definition the cache has to agree with. */
  function Derived(hash: Hash, peerPid: u32, password: Option<string>): seq<byte> {
    Iterate(hash, Rounds(peerPid), T.Utf8(Secret(password)))
  }

  lemma {:induction false} IterateSplits(hash: Hash, m: nat, n: nat, data: seq<byte>)
    ensures Iterate(hash, m + n, data) == Iterate(hash, m, Iterate(hash, n, data))
  {
    if m == 0 {
    } else {
      IterateSplits(hash, m - 1, n, data);
    }
  }

  lemma IterateOnce(hash: Hash, data: seq<byte>)
    ensures Iterate(hash, 1, data) == hash(data)
  {
    assert Iterate(hash, 0, data) == data;
  }

  /**
   * Keys of principals 1024 apart are the same; within a block of 1024, each is the hash of the one
   * before; the first is the password after 65000 rounds.
   */
  lemma DerivedKeys(hash: Hash, pid: u32, other: u32, password: Option<string>, rounds: nat)
    requires rounds == 65000
    ensures password.Some? && pid % 1024 == 0 ==>
              Derived(hash, pid, password) == Iterate(hash, rounds, T.Utf8(password.value))
    ensures pid % 1024 != 0 ==> Derived(hash, pid, password) == hash(Derived(hash, pid - 1, password))
    ensures pid % 1024 == other % 1024 ==> Derived(hash, pid, password) == Derived(hash, other, password)
  {
    hide Iterate, T.Utf8;
    if pid % 1024 != 0 {
      NextRounds(pid);
      var data := T.Utf8(Secret(password));
      IterateSplits(hash, 1, Rounds(pid - 1), data);
      IterateOnce(hash, Derived(hash, pid - 1, password));
    }
  }

  /** No password stands for one that everybody knows. */
  lemma DefaultPassword(hash: Hash, pid: u32, password: Option<string>)
    requires password == Some("UbiDummyPwd")
    ensures Derived(hash, pid, None) == Derived(hash, pid, password)
  {
    hide Iterate, T.Utf8, Rounds;
  }

  lemma NextRounds(pid: u32)
    requires pid % 1024 != 0
    ensures Rounds(pid) == 1 + Rounds(pid - 1)
  {}

  function CacheKey(rounds: nat, secret: string): string {
    T.Digits(rounds) + [':'] + secret
  }

  /** Passwords may contain colons: the first one ends the number. */
  lemma CacheKeyInjective(m: nat, s: string, n: nat, t: string)
    requires CacheKey(m, s) == CacheKey(n, t)
    ensures m == n && s == t
  {
    T.DigitsOnly(m, ':');
    T.DigitsOnly(n, ':');
    T.IndexOfPrefix(T.Digits(m), ':', s);
    T.IndexOfPrefix(T.Digits(n), ':', t);
    var k := CacheKey(m, s);
    assert k[..|T.Digits(m)|] == T.Digits(m) && k[..|T.Digits(n)|] == T.Digits(n);
    assert k[|T.Digits(m)| + 1..] == s && k[|T.Digits(n)| + 1..] == t;
    T.ParseDigitsDigits(m);
    T.ParseDigitsDigits(n);
  }

  method Copy(data: seq<byte>) returns (a: array<byte>)
    ensures fresh(a) && a[..] == data
  {
    a := new byte[|data|](i requires 0 <= i < |data| => data[i]);
  }

  class KeyCache {
    const hash: Hash
    /** The keys of `entries`, oldest first. */
    var order: seq<string>
    var entries: map<string, array<byte>>

    ghost predicate Valid()
      reads this, entries.Values
    {
      && |order| <= MAX_DERIVED_KEYS
      && (forall i, j :: 0 <= i < j < |order| ==> order[i] != order[j])
      && (forall k :: k in entries <==> k in order)
      && (forall n, s :: CacheKey(n, s) in entries ==>
            entries[CacheKey(n, s)][..] == Iterate(hash, n, T.Utf8(s)))
    }

    constructor (hash: Hash)
      ensures Valid() && this.hash == hash && entries == map[] && order == []
    {
      this.hash, order, entries := hash, [], map[];
    }

    /** The order after looking up `k`: unchanged, or `k` at the end and the oldest gone if it was full. */
    ghost predicate Used(before: seq<string>, k: string)
      reads this
    {
      order == if k in before then before
               else (if |before| == 4096 then before[1..] else before) + [k]
    }

    /**
     * The derived key, from the cache or not, in a buffer of its own: writing to it changes no later
     * result. The cache grows to its limit and then drops its oldest entry.
     */
    method DeriveKey(peerPid: u32, password: Option<string>) returns (key: array<byte>)
      requires Valid()
      modifies this
      ensures Valid() && fresh(key) && key !in entries.Values
      ensures fresh(entries.Values - old(entries.Values))
      ensures key[..] == Derived(hash, peerPid, password)
      ensures Used(old(order), CacheKey(Rounds(peerPid), Secret(password)))
    {
      var stored := Remember(Rounds(peerPid), Secret(password));
      key := Copy(stored[..]);
    }

    method Remember(count: nat, secret: string) returns (stored: array<byte>)
      requires Valid()
      modifies this
      ensures Valid() && stored in entries.Values
      ensures fresh(entries.Values - old(entries.Values))
      ensures stored[..] == Iterate(hash, count, T.Utf8(secret))
      ensures Used(old(order), CacheKey(count, secret))
    {
      hide CacheKey;
      var cacheKey := CacheKey(count, secret);
      if cacheKey !in entries {
        var derived := Compute(count, secret);
        if |order| >= MAX_DERIVED_KEYS {
          Evict();
        }
        Insert(count, secret, derived);
      }
      stored := entries[cacheKey];
    }

    method Compute(count: nat, secret: string) returns (derived: seq<byte>)
      ensures derived == Iterate(hash, count, T.Utf8(secret))
    {
      derived := T.Utf8(secret);
      for i := 0 to count
        invariant derived == Iterate(hash, i, T.Utf8(secret))
      {
        derived := hash(derived);
      }
    }

    method Evict()
      requires Valid() && order != []
      modifies this
      ensures Valid() && order == old(order)[1..]
      ensures entries == old(entries) - {old(order)[0]}
    {
      entries := entries - {order[0]};
      order := order[1..];
    }

    method Insert(rounds: nat, secret: string, derived: seq<byte>)
      requires Valid() && |order| < MAX_DERIVED_KEYS && CacheKey(rounds, secret) !in entries
      requires derived == Iterate(hash, rounds, T.Utf8(secret))
      modifies this
      ensures Valid()
      ensures order == old(order) + [CacheKey(rounds, secret)]
      ensures entries.Keys == old(entries.Keys) + {CacheKey(rounds, secret)}
      ensures fresh(entries.Values - old(entries.Values))
    {
      var cacheKey := CacheKey(rounds, secret);
      var buffer := Copy(derived);
      forall n, s | CacheKey(n, s) == cacheKey ensures n == rounds && s == secret {
        CacheKeyInjective(n, s, rounds, secret);
      }
      ghost var before := entries;
      entries := entries[cacheKey := buffer];
      order := order + [cacheKey];
      assert forall v :: v in entries.Values ==> v == buffer || v in before.Values;
    }
  }

  /** What callers do: ask for a key, or write into a buffer they were given earlier. */
  datatype Use = Ask(peerPid: u32, password: Option<string>) | Scribble(buffer: nat, at: nat, b: byte)

  /** What is asked for in a history, in order. */
  function Asked(uses: seq<Use>): seq<(u32, Option<string>)> {
    if uses == [] then [] else
    var before := Asked(uses[..|uses| - 1]);
    var last := uses[|uses| - 1];
    if last.Ask? then before + [(last.peerPid, last.password)] else before
  }

  /** The buffers callers hold belong to them alone: writing into them reaches no cached key. */
  ghost predicate Apart(cache: KeyCache, buffers: seq<array<byte>>)
    reads cache
  {
    forall i :: 0 <= i < |buffers| ==> buffers[i] !in cache.entries.Values
  }

  method AskFor(cache: KeyCache, peerPid: u32, password: Option<string>, buffers: seq<array<byte>>)
    returns (key: array<byte>)
    requires cache.Valid() && Apart(cache, buffers)
    modifies cache
    ensures cache.Valid() && fresh(key) && Apart(cache, buffers + [key])
    ensures key[..] == Derived(cache.hash, peerPid, password)
  {
    hide Derived;
    key := cache.DeriveKey(peerPid, password);
  }

  method Write(cache: KeyCache, buffer: array<byte>, at: nat, b: byte)
    requires cache.Valid() && buffer !in cache.entries.Values
    modifies buffer
    ensures cache.Valid()
  {
    if at < buffer.Length {
      buffer[at] := b;
    }
  }

  /**
   * Any history in which callers ask for keys and write whatever they like, whenever they like, into
   * any buffer they were ever given: every key is the plain definition's.
   */
  method Replay(cache: KeyCache, uses: seq<Use>) returns (results: seq<seq<byte>>)
    requires cache.Valid()
    modifies cache
    ensures cache.Valid() && |results| == |Asked(uses)|
    ensures forall i :: 0 <= i < |results| ==>
              results[i] == Derived(cache.hash, Asked(uses)[i].0, Asked(uses)[i].1)
  {
    hide Derived;
    results := [];
    var buffers: seq<array<byte>> := [];
    for n := 0 to |uses|
      invariant cache.Valid() && Apart(cache, buffers) && |results| == |Asked(uses[..n])|
      invariant forall i :: 0 <= i < |buffers| ==> fresh(buffers[i])
      invariant forall i :: 0 <= i < |results| ==>
                  results[i] == Derived(cache.hash, Asked(uses[..n])[i].0, Asked(uses[..n])[i].1)
    {
      assert uses[..n + 1][..n] == uses[..n];
      match uses[n] {
        case Ask(peerPid, password) =>
          var key := AskFor(cache, peerPid, password, buffers);
          results := results + [key[..]];
          buffers := buffers + [key];
        case Scribble(buffer, at, b) =>
          if buffer < |buffers| {
            Write(cache, buffers[buffer], at, b);
          }
      }
    }
    assert uses[..|uses|] == uses;
  }

  // ---- tickets ----

  datatype TicketInternal = TicketInternal(principleId: u32, validUntil: nat, sessionKey: seq<byte>)

  const TICKET := C.Struct([C.One(C.Unsigned(4)), C.One(C.Unsigned(8)), C.One(C.Fixed(SESSION_KEY_SIZE))])

  predicate ValidTicket(t: TicketInternal) {
    t.validUntil < Pow256(8) && |t.sessionKey| == SESSION_KEY_SIZE
  }

  function TicketValue(t: TicketInternal): C.Value {
    C.Items([C.Number(t.principleId), C.Number(t.validUntil), C.Bytes(t.sessionKey)])
  }

  function TicketBytes(t: TicketInternal): seq<byte> {
    Le(t.principleId, 4) + (Le(t.validUntil, 8) + (t.sessionKey + []))
  }

  /** Bytes behind the ticket are ignored. */
  function ParseTicket(bs: seq<byte>): Result<TicketInternal> {
    Widths();
    var (principleId, rest1) :- ReadUnsigned(bs, 4);
    var (validUntil, rest2) :- ReadUnsigned(rest1, 8);
    var (sessionKey, _) :- Take(rest2, SESSION_KEY_SIZE);
    Ok(TicketInternal(principleId, validUntil, sessionKey))
  }

  /** This is what the struct codec of the ticket writes ... */
  lemma TicketWritten(t: TicketInternal)
    requires ValidTicket(t)
    ensures C.Write(TICKET, TicketValue(t)) == Ok(TicketBytes(t))
  {
    Widths();
    var f1, f2, f3 := C.One(C.Unsigned(4)), C.One(C.Unsigned(8)), C.One(C.Fixed(SESSION_KEY_SIZE));
    var v1, v2, v3 := C.Number(t.principleId), C.Number(t.validUntil), C.Bytes(t.sessionKey);
    assert C.WriteFields([], []) == Ok([]);
    assert [f3][1..] == [] && [v3][1..] == [];
    assert C.WriteFields([f3], [v3]) == Ok(t.sessionKey + []);
    assert [f2, f3][1..] == [f3] && [v2, v3][1..] == [v3];
    assert C.WriteFields([f2, f3], [v2, v3]) == Ok(Le(t.validUntil, 8) + (t.sessionKey + []));
    assert [f1, f2, f3][1..] == [f2, f3] && [v1, v2, v3][1..] == [v2, v3];
    assert C.WriteFields([f1, f2, f3], [v1, v2, v3]) == Ok(TicketBytes(t));
  }

  /** ... and reads, or fails to read for the same reason. */
  lemma TicketRead(bs: seq<byte>)
    ensures var read := C.Read(TICKET, bs);
            && read.Ok? == ParseTicket(bs).Ok?
            && (read.Ok? ==> read.value.0 == TicketValue(ParseTicket(bs).value))
            && (read.Err? ==> read.error == ParseTicket(bs).error)
  {
    var f1, f2, f3 := C.One(C.Unsigned(4)), C.One(C.Unsigned(8)), C.One(C.Fixed(SESSION_KEY_SIZE));
    assert [f1, f2, f3][1..] == [f2, f3] && [f2, f3][1..] == [f3] && [f3][1..] == [];
    var read1 := ReadUnsigned(bs, 4);
    if read1.Ok? {
      var v1 := C.Number(read1.value.0);
      ReadField(f1, [f2, f3], bs, []);
      assert [] + [v1] == [v1];
      var read2 := ReadUnsigned(read1.value.1, 8);
      if read2.Ok? {
        var v2 := C.Number(read2.value.0);
        ReadField(f2, [f3], read1.value.1, [v1]);
        assert [v1] + [v2] == [v1, v2];
        ReadField(f3, [], read2.value.1, [v1, v2]);
      }
    }
  }

  /** One turn of the struct reader. */
  lemma ReadField(f: C.Codec, fields: seq<C.Codec>, bs: seq<byte>, done: seq<C.Value>)
    ensures var one := C.Read(f, bs);
            C.ReadFields([f] + fields, bs, done) ==
            if one.Ok? then C.ReadFields(fields, one.value.1, done + [one.value.0]) else Err(one.error)
  {
    assert ([f] + fields)[1..] == fields;
  }

  lemma ParseTicketBytes(t: TicketInternal)
    requires ValidTicket(t)
    ensures ParseTicket(TicketBytes(t)) == Ok(t)
  {
    Widths();
    ReadLe(t.principleId, 4, Le(t.validUntil, 8) + (t.sessionKey + []));
    ReadLe(t.validUntil, 8, t.sessionKey + []);
    TakeAppend(t.sessionKey, []);
  }

  /** secretbox: opening with the right nonce and key undoes sealing, which adds 16 bytes. */
  ghost predicate BoxSound(box: SecretBox) {
    forall m: seq<byte>, n: seq<byte>, k: seq<byte> ::
      box.open(box.seal(m, n, k), n, k) == Some(m) && |box.seal(m, n, k)| == |m| + 16
  }

  lemma SoundBox() returns (box: SecretBox)
    ensures BoxSound(box)
  {
    box := SecretBox((m, n, k) => m + seq(16, i => 0), (c, n, k) => if |c| < 16 then None else Some(c[..|c| - 16]));
    forall m: seq<byte>, n: seq<byte>, k: seq<byte> ensures box.open(box.seal(m, n, k), n, k) == Some(m) {
      assert box.seal(m, n, k)[..|m|] == m;
    }
  }

  function SealTicket(box: SecretBox, t: TicketInternal, nonce: seq<byte>, key: seq<byte>): seq<byte> {
    nonce + box.seal(TicketBytes(t), nonce, key)
  }

  function OpenTicket(box: SecretBox, data: seq<byte>, key: seq<byte>): Result<TicketInternal> {
    if |data| < NONCE_SIZE then Err(StreamError) else
    match box.open(data[NONCE_SIZE..], data[..NONCE_SIZE], key)
    case None => Err(StreamError)
    case Some(plain) => ParseTicket(plain)
  }

  lemma OpenSealedTicket(box: SecretBox, t: TicketInternal, nonce: seq<byte>, key: seq<byte>)
    requires BoxSound(box) && ValidTicket(t) && |nonce| == NONCE_SIZE
    ensures OpenTicket(box, SealTicket(box, t, nonce, key), key) == Ok(t)
    ensures |SealTicket(box, t, nonce, key)| == 68
  {
    var sealed := box.seal(TicketBytes(t), nonce, key);
    assert box.open(sealed, nonce, key) == Some(TicketBytes(t)) && |sealed| == |TicketBytes(t)| + 16;
    var data := SealTicket(box, t, nonce, key);
    assert data[..NONCE_SIZE] == nonce && data[NONCE_SIZE..] == sealed;
    ParseTicketBytes(t);
  }

  ghost predicate HashesSound(h: Hashes) {
    && (forall x: seq<byte> :: |h.md5(x)| == 16)
    && (forall k: seq<byte>, x: seq<byte> :: |h.hmac(k, x)| == MAC_SIZE)
  }

  /** What the client gets: session key, service and sealed ticket under its password, with a MAC. */
  function EncodeTicket(h: Hashes, sessionKey: seq<byte>, pid: u32, sealed: seq<byte>,
                        peerPid: u32, password: Option<string>): Result<seq<byte>> {
    if |sealed| >= 0x1_0000_0000 then Err(RangeError) else
    var key := Derived(h.md5, peerPid, password);
    var encrypted :- Rc4.Crypt(key, sessionKey + (Le(pid, 4) + (Le(|sealed|, 4) + (sealed + []))));
    Ok(encrypted + h.hmac(key, encrypted))
  }

  function DecodeTicket(h: Hashes, data: seq<byte>, peerPid: u32, password: Option<string>)
    : Result<(seq<byte>, u32, seq<byte>)>
  {
    Widths();
    if |data| < MAC_SIZE then Err(StreamError) else
    var encrypted := data[..|data| - MAC_SIZE];
    var key := Derived(h.md5, peerPid, password);
    if h.hmac(key, encrypted) != data[|data| - MAC_SIZE..] then Err(StreamError) else
    var plain :- Rc4.Crypt(key, encrypted);
    var (sessionKey, rest1) :- Take(plain, SESSION_KEY_SIZE);
    var (pid, rest2) :- ReadUnsigned(rest1, 4);
    var (size, rest3) :- ReadUnsigned(rest2, 4);
    var (sealed, _) :- Take(rest3, size);
    Ok((sessionKey, pid, sealed))
  }

  lemma DerivedKeySize(h: Hashes, peerPid: u32, password: Option<string>)
    requires HashesSound(h)
    ensures |Derived(h.md5, peerPid, password)| == 16
  {
    var n := Rounds(peerPid);
    assert |h.md5(Iterate(h.md5, n - 1, T.Utf8(Secret(password))))| == 16;
  }

  lemma TicketFields(sessionKey: seq<byte>, pid: u32, sealed: seq<byte>)
    requires |sessionKey| == SESSION_KEY_SIZE && |sealed| < 0x1_0000_0000
    ensures var rest3 := sealed + [];
            var rest2 := Le(|sealed|, 4) + rest3;
            var rest1 := Le(pid, 4) + rest2;
            && Take(sessionKey + rest1, SESSION_KEY_SIZE) == Ok((sessionKey, rest1))
            && ReadUnsigned(rest1, 4) == Ok((pid, rest2)) && ReadUnsigned(rest2, 4) == Ok((|sealed|, rest3))
            && Take(rest3, |sealed|) == Ok((sealed, []))
  {
    Widths();
    TakeAppend(sessionKey, Le(pid, 4) + (Le(|sealed|, 4) + (sealed + [])));
    ReadLe(pid, 4, Le(|sealed|, 4) + (sealed + []));
    ReadLe(|sealed|, 4, sealed + []);
    TakeAppend(sealed, []);
  }

  lemma SameSize(key: seq<byte>, data: seq<byte>)
    requires Rc4.ValidKey(key)
    ensures |Rc4.Crypt(key, data).value| == |data|
  {}

  /** A client that knows the password gets out of a ticket what the server put in. */
  lemma TicketRoundTrip(h: Hashes, sessionKey: seq<byte>, pid: u32, sealed: seq<byte>,
                        peerPid: u32, password: Option<string>)
    requires HashesSound(h) && |sessionKey| == SESSION_KEY_SIZE && |sealed| < 0x1_0000_0000
    ensures EncodeTicket(h, sessionKey, pid, sealed, peerPid, password).Ok?
    ensures DecodeTicket(h, EncodeTicket(h, sessionKey, pid, sealed, peerPid, password).value, peerPid, password)
            == Ok((sessionKey, pid, sealed))
    ensures |EncodeTicket(h, sessionKey, pid, sealed, peerPid, password).value| == 16 + 4 + 4 + |sealed| + 16
  {
    hide Derived, Rc4.Crypt, Take, ReadUnsigned, Le;
    var key := Derived(h.md5, peerPid, password);
    DerivedKeySize(h, peerPid, password);
    var plain := sessionKey + (Le(pid, 4) + (Le(|sealed|, 4) + (sealed + [])));
    Rc4.CryptCancel(key, plain);
    var encrypted := Rc4.Crypt(key, plain).value;
    SameSize(key, plain);
    var mac := h.hmac(key, encrypted);
    assert |mac| == MAC_SIZE;
    var data := encrypted + mac;
    assert data[..|data| - MAC_SIZE] == encrypted && data[|data| - MAC_SIZE..] == mac;
    TicketFields(sessionKey, pid, sealed);
  }
}
