/** Requests in several fragments: what is buffered, and when and with what a handler is called. */
module Reassembly {
  import opened Basics
  import Rc4
  import opened Packets
  import opened Server
  import opened Frames
  import opened Registry
  import opened Runs
  import Streams

  // ---- the buffer ----

  /** What a client may have buffered: never fragment 0, and never more than 1 MiB. */
  ghost predicate Bounded(fragments: map<byte, seq<byte>>) {
    0 !in fragments && Buffered(fragments, 256) <= 0x10_0000
  }

  lemma {:induction false} BufferedUpdate(fragments: map<byte, seq<byte>>, id: byte, data: seq<byte>, n: nat)
    requires n <= 256
    ensures Buffered(fragments[id := data], n) == Buffered(fragments - {id}, n) + if id < n then |data| else 0
    decreases n
  {
    if n == 0 {
    } else {
      BufferedUpdate(fragments, id, data, n - 1);
    }
  }

  lemma {:induction false} NothingBuffered(n: nat)
    requires n <= 256
    ensures Buffered(map[], n) == 0
    decreases n
  {
    if n == 0 {
    } else {
      NothingBuffered(n - 1);
    }
  }

  lemma StoreBounded(fragments: map<byte, seq<byte>>, id: byte, data: seq<byte>)
    requires Bounded(fragments) && id != 0
    ensures Bounded(Store(fragments, id, data))
  {
    hide Buffered;
    BufferedUpdate(fragments, id, data, 256);
    NothingBuffered(256);
  }

  /**
   * The buffer takes a fragment in place of an earlier one with its number, unless it would then hold
   * more than 1 MiB: in that case it is emptied.
   */
  lemma StoreKeepsLatest(fragments: map<byte, seq<byte>>, id: byte, data: seq<byte>)
    ensures Store(fragments, id, data) ==
            if Buffered(fragments[id := data], 256) <= 0x10_0000 then fragments[id := data] else map[]
  {
    hide Buffered;
    BufferedUpdate(fragments, id, data, 256);
  }

  lemma {:induction false} BufferedMonotone(f: map<byte, seq<byte>>, g: map<byte, seq<byte>>, n: nat)
    requires n <= 256 && forall k :: k in f ==> k in g && g[k] == f[k]
    ensures Buffered(f, n) <= Buffered(g, n)
    decreases n
  {
    if n == 0 {
    } else {
      BufferedMonotone(f, g, n - 1);
    }
  }

  // ---- which buffers make a message ----

  /** The numbers 1 to `n`. */
  function UpTo(n: nat): (s: set<byte>)
    requires n < 256
    ensures forall k :: k in s <==> 1 <= k <= n
    ensures |s| == n
  {
    if n == 0 then {} else UpTo(n - 1) + {n}
  }

  lemma {:induction false} JoinedWhen(fragments: map<byte, seq<byte>>, n: nat)
    requires n < 256
    ensures Joined(fragments, n).Some? <==> UpTo(n) <= fragments.Keys
    decreases n
  {
    if n == 0 {
    } else {
      JoinedWhen(fragments, n - 1);
      assert UpTo(n) == UpTo(n - 1) + {n};
    }
  }

  /** The bytes of the fragments 1 to `n`, one after another. */
  function InOrder(fragments: map<byte, seq<byte>>, n: nat): seq<byte>
    requires n < 256 && UpTo(n) <= fragments.Keys
  {
    if n == 0 then [] else
    assert UpTo(n) == UpTo(n - 1) + {n};
    InOrder(fragments, n - 1) + fragments[n]
  }

  lemma {:induction false} JoinedInOrder(fragments: map<byte, seq<byte>>, n: nat)
    requires n < 256 && UpTo(n) <= fragments.Keys
    ensures Joined(fragments, n) == Some(InOrder(fragments, n))
    decreases n
  {
    if n == 0 {
    } else {
      JoinedInOrder(fragments, n - 1);
    }
  }

  lemma SubsetOfSameSize<T>(a: set<T>, b: set<T>)
    requires a <= b && |a| == |b|
    ensures a == b
  {
    assert |b - a| == |b| - |a|;
    assert forall x :: x in b ==> x in a || x in b - a;
  }

  lemma FewKeys(fragments: map<byte, seq<byte>>, n: nat)
    requires n < 256 && forall k :: k in fragments ==> 1 <= k <= n
    ensures |fragments| <= n
  {
    var all := UpTo(n);
    assert fragments.Keys <= all;
    assert |all - fragments.Keys| == |all| - |fragments.Keys|;
  }

  /** A last fragment completes a message exactly when the buffer holds the fragments 1 to its size. */
  lemma CompleteWhen(fragments: map<byte, seq<byte>>, last: seq<byte>)
    requires 0 !in fragments
    ensures |fragments| < 256
    ensures Assemble(fragments, last) == if fragments.Keys != UpTo(|fragments|) then None
                                         else Some(InOrder(fragments, |fragments|) + last)
  {
    FewKeys(fragments, 255);
    JoinedWhen(fragments, |fragments|);
    if UpTo(|fragments|) <= fragments.Keys {
      SubsetOfSameSize(UpTo(|fragments|), fragments.Keys);
      JoinedInOrder(fragments, |fragments|);
    }
  }

  lemma {:induction false} JoinedSize(fragments: map<byte, seq<byte>>, n: nat)
    requires n < 256 && Joined(fragments, n).Some?
    ensures |Joined(fragments, n).value| <= Buffered(fragments, n + 1)
    decreases n
  {
    if n == 0 {
    } else {
      JoinedSize(fragments, n - 1);
    }
  }

  lemma {:induction false} BufferedGrows(fragments: map<byte, seq<byte>>, m: nat, n: nat)
    requires m <= n <= 256
    ensures Buffered(fragments, m) <= Buffered(fragments, n)
    decreases n - m
  {
    if m < n {
      BufferedGrows(fragments, m + 1, n);
    }
  }

  // ---- fragments in any order ----

  function FeedAll(fragments: map<byte, seq<byte>>, fs: seq<Fragment>): map<byte, seq<byte>> {
    if fs == [] then fragments else Feed(FeedAll(fragments, fs[..|fs| - 1]), fs[|fs| - 1])
  }

  lemma {:induction false} FeedBounded(fragments: map<byte, seq<byte>>, fs: seq<Fragment>)
    requires Bounded(fragments)
    ensures Bounded(FeedAll(fragments, fs))
    decreases |fs|
  {
    hide Bounded, Store;
    if fs == [] {
    } else {
      FeedBounded(fragments, fs[..|fs| - 1]);
      var f := fs[|fs| - 1];
      if f.id % 256 == 0 {
        EmptyBounded();
      } else {
        StoreBounded(FeedAll(fragments, fs[..|fs| - 1]), f.id % 256, f.data);
      }
    }
  }

  lemma EmptyBounded()
    ensures Bounded(map[])
  {
    NothingBuffered(256);
  }

  /** Every fragment is one of the parts, under its number, counted from 1. */
  ghost predicate Among(fs: seq<Fragment>, parts: seq<seq<byte>>) {
    forall f :: f in fs ==> 1 <= f.id <= |parts| && f.data == parts[f.id - 1]
  }

  function Part(parts: seq<seq<byte>>, k: nat): Fragment
    requires 1 <= k <= |parts|
  {
    Fragment(k, parts[k - 1])
  }

  /** Every part arrives, in any order and any number of times. */
  ghost predicate Covers(fs: seq<Fragment>, parts: seq<seq<byte>>) {
    forall k :: 1 <= k <= |parts| ==> Part(parts, k) in fs
  }

  /** The buffer with all the parts in it. */
  function Whole(parts: seq<seq<byte>>): map<byte, seq<byte>>
    requires |parts| < 256
  {
    map k: byte | 1 <= k <= |parts| :: Part(parts, k).data
  }

  lemma {:induction false} WholeBuffered(parts: seq<seq<byte>>, n: nat)
    requires |parts| < 256 && n <= |parts|
    ensures Buffered(Whole(parts), n + 1) == |Streams.Concat(parts[..n])|
    ensures Joined(Whole(parts), n) == Some(Streams.Concat(parts[..n]))
    decreases n
  {
    if n > 0 {
      WholeBuffered(parts, n - 1);
      assert parts[..n][..n - 1] == parts[..n - 1];
    } else {
      assert Buffered(Whole(parts), 0) == 0;
    }
  }

  lemma {:induction false} BeyondBuffered(parts: seq<seq<byte>>, n: nat)
    requires |parts| < n <= 256
    ensures Buffered(Whole(parts), n) == Buffered(Whole(parts), |parts| + 1)
    decreases n
  {
    if n > |parts| + 1 {
      BeyondBuffered(parts, n - 1);
    }
  }

  lemma WholeIsConcat(parts: seq<seq<byte>>, last: seq<byte>)
    requires |parts| < 256
    ensures Buffered(Whole(parts), 256) == |Streams.Concat(parts)|
    ensures Assemble(Whole(parts), last) == Some(Streams.Concat(parts) + last)
  {
    assert parts[..|parts|] == parts;
    WholeBuffered(parts, |parts|);
    BeyondBuffered(parts, 256);
    assert Whole(parts).Keys == UpTo(|parts|);
  }

  ghost predicate PartsOnly(b: map<byte, seq<byte>>, parts: seq<seq<byte>>) {
    forall k :: k in b ==> 1 <= k <= |parts| && b[k] == parts[k - 1]
  }

  /** While everything fits, the buffer holds exactly the parts that have arrived. */
  lemma {:induction false} FeedCollects(fs: seq<Fragment>, parts: seq<seq<byte>>)
    requires |parts| < 256 && |Streams.Concat(parts)| <= MAX_REASSEMBLED_SIZE && Among(fs, parts)
    ensures PartsOnly(FeedAll(map[], fs), parts)
    ensures forall k :: 1 <= k <= |parts| && Part(parts, k) in fs ==> k in FeedAll(map[], fs)
    decreases |fs|
  {
    hide Store, Buffered, Assemble, Streams.Concat;
    if fs == [] {
    } else {
      var init, f := fs[..|fs| - 1], fs[|fs| - 1];
      assert fs == init + [f] && f in fs;
      FeedCollects(init, parts);
      StoreFits(FeedAll(map[], init), f.id, parts);
    }
  }

  lemma StoreFits(b: map<byte, seq<byte>>, id: byte, parts: seq<seq<byte>>)
    requires 1 <= id <= |parts| < 256 && |Streams.Concat(parts)| <= MAX_REASSEMBLED_SIZE
    requires PartsOnly(b, parts)
    ensures Store(b, id, parts[id - 1]) == b[id := parts[id - 1]]
  {
    hide Buffered, Streams.Concat;
    BufferedUpdate(b, id, parts[id - 1], 256);
    BufferedMonotone(b[id := parts[id - 1]], Whole(parts), 256);
    WholeIsConcat(parts, []);
  }

  lemma AssembledSize(fragments: map<byte, seq<byte>>, last: seq<byte>)
    requires Bounded(fragments) && Assemble(fragments, last).Some?
    ensures |Assemble(fragments, last).value| <= MAX_REASSEMBLED_SIZE + |last|
  {
    JoinedSize(fragments, |fragments|);
    BufferedGrows(fragments, |fragments| + 1, 256);
  }

  /**
   * However the first fragments of a message arrive at an empty buffer, in whatever order and however
   * often each, its last fragment then completes exactly that message if and only if the others fit
   * the limit together.
   */
  lemma AnyOrder(fs: seq<Fragment>, parts: seq<seq<byte>>, last: seq<byte>)
    requires |parts| < 256 && Among(fs, parts) && Covers(fs, parts)
    ensures Assemble(FeedAll(map[], fs), last) == Some(Streams.Concat(parts) + last)
            <==> |Streams.Concat(parts)| <= 0x10_0000
  {
    hide Assemble, Store, Buffered, Streams.Concat;
    if |Streams.Concat(parts)| <= MAX_REASSEMBLED_SIZE {
      FeedCollects(fs, parts);
      assert FeedAll(map[], fs) == Whole(parts);
      WholeIsConcat(parts, last);
    } else {
      EmptyBounded();
      FeedBounded(map[], fs);
      if Assemble(FeedAll(map[], fs), last).Some? {
        AssembledSize(FeedAll(map[], fs), last);
      }
    }
  }

  // ---- what each step does to the buffers and what handlers are called with ----

  function Calls(ports: set<byte>, p: QPacket, client: nat, c: Client): seq<Delivery> {
    var message := Brought(ports, c, p);
    if message.Some? then [Delivery(client, message.value)] else []
  }

  /** A DATA packet feeds the buffer of its client and calls the handler with the message it completes. */
  lemma DataFeeds(ctx: Context, s: State, ports: set<byte>, p: QPacket, from: Address, env: Env)
    requires Rc4.ValidKey(ctx.cryptoKey)
    requires Closed(s) && p.signature in s.clients
    ensures var client := s.clients[p.signature];
            var c := s.objects[client];
            var t := HandleData(ctx, s, ports, p, from, env);
            && |t.objects| == |s.objects|
            && t.deliveries == s.deliveries + Calls(ports, p, client, c)
            && t.objects[client].packetFragments == FeedPacket(c.packetFragments, p)
            && forall i: nat :: i < |s.objects| && i != client ==>
                 t.objects[i].packetFragments == s.objects[i].packetFragments
  {
    hide HandleData, FeedPacket, Brought, Said, Awaited;
    DataFrame(ctx, s, ports, p, from, env);
    assert s.deliveries + [] == s.deliveries;
  }

  /** The client whose buffer and handler an event concerns. */
  predicate Concerns(s: State, e: Event, i: nat) {
    CarriesData(s, e) && s.clients[e.packet.signature] == i
  }

  /** What a step does to the buffer of client `i`. */
  lemma StepFeeds(ctx: Context, ports: set<byte>, s: State, e: Event, i: nat)
    requires Closed(s)
    ensures var t := Step(ctx, ports, s, e);
            && |s.objects| <= |t.objects|
            && (i < |t.objects| ==>
                  t.objects[i].packetFragments ==
                  if i >= |s.objects| then map[]
                  else if Concerns(s, e, i) then FeedPacket(s.objects[i].packetFragments, e.packet)
                  else s.objects[i].packetFragments)
  {
    hide Step, FeedPacket, CarriesData, IsHeard;
    StepFrame(ctx, ports, s, e);
    if i < |s.objects| {
      assert ClientFramed(s, e, i, Step(ctx, ports, s, e).objects[i]);
    }
  }

  // ---- runs ----

  ghost predicate BuffersBounded(s: State) {
    forall i :: 0 <= i < |s.objects| ==> Bounded(s.objects[i].packetFragments)
  }

  lemma FeedPacketBounded(fragments: map<byte, seq<byte>>, p: QPacket)
    requires Bounded(fragments)
    ensures Bounded(FeedPacket(fragments, p))
  {
    hide Bounded, Store;
    EmptyBounded();
    if p.fragmentId.Some? && p.fragmentId.value % 256 != 0 {
      StoreBounded(fragments, p.fragmentId.value % 256, p.payload);
    }
  }

  /** In every reachable state no client has more buffered than the limit, and none has fragment 0. */
  lemma {:induction false} RunBuffersBounded(ctx: Context, ports: set<byte>, es: seq<Event>)
    ensures BuffersBounded(Run(ctx, ports, Initial(), es))
    decreases |es|
  {
    hide Step, Bounded, FeedPacket;
    if es == [] {
    } else {
      var init, e := es[..|es| - 1], es[|es| - 1];
      var s := Run(ctx, ports, Initial(), init);
      RunBuffersBounded(ctx, ports, init);
      forall i: nat | i < |Step(ctx, ports, s, e).objects|
        ensures Bounded(Step(ctx, ports, s, e).objects[i].packetFragments)
      {
        StepFeeds(ctx, ports, s, e, i);
        EmptyBounded();
        if i < |s.objects| && e.Incoming? {
          FeedPacketBounded(s.objects[i].packetFragments, e.packet);
        }
      }
    }
  }

  /** The fragments that arrive under a signature. */
  function FragmentsFor(es: seq<Event>, signature: u32): seq<Fragment> {
    if es == [] then [] else
    var before := FragmentsFor(es[..|es| - 1], signature);
    var e := es[|es| - 1];
    if e.Incoming? && !IsAck(e.packet) && e.packet.packetType == DATA && e.packet.signature == signature
       && e.packet.fragmentId.Some?
    then before + [Fragment(e.packet.fragmentId.value, e.packet.payload)] else before
  }

  lemma FeedSnoc(b: map<byte, seq<byte>>, fs: seq<Fragment>, f: Fragment)
    ensures FeedAll(b, fs + [f]) == Feed(FeedAll(b, fs), f)
  {
    assert (fs + [f])[..|fs|] == fs;
  }

  lemma ConnectedConcerns(s: State, e: Event, i: nat)
    requires Inv(s) && IsConnected(s, i)
    ensures Concerns(s, e, i) <==> e.Incoming? && !IsAck(e.packet) && e.packet.packetType == DATA
                                   && e.packet.signature == s.objects[i].serverSignature
  {}

  /**
   * Whatever else happens, as long as a client stays connected its buffer is what the fragments that
   * arrived under its signature make of it.
   */
  lemma {:induction false} RunFeeds(ctx: Context, ports: set<byte>, s: State, es: seq<Event>, i: nat)
    requires Rc4.ValidKey(ctx.cryptoKey)
    requires Closed(s) && Inv(s) && FreshRun(ctx, ports, s, es) && Run(ctx, ports, s, es).accepted <= WRAP
    requires i < |s.objects| && IsConnected(s, i) && IsConnected(Run(ctx, ports, s, es), i)
    ensures Run(ctx, ports, s, es).objects[i].serverSignature == s.objects[i].serverSignature
    ensures Run(ctx, ports, s, es).objects[i].packetFragments ==
            FeedAll(s.objects[i].packetFragments, FragmentsFor(es, s.objects[i].serverSignature))
    decreases |es|
  {
    hide Inv, Step, Fresh, Closed, IsConnected, FeedAll, Feed, Concerns, PhaseOf;
    if es == [] {
      NothingFed(s.objects[i].packetFragments);
    } else {
      var init, e := es[..|es| - 1], es[|es| - 1];
      var before := Run(ctx, ports, s, init);
      StepCloses(ctx, ports, before, e);
      RunKeepsInv(ctx, ports, s, init);
      RunAdvances(ctx, ports, s, init, i);
      ConnectedPhase(s, i);
      StepAdvances(ctx, ports, before, e, i);
      StillConnected(before, Run(ctx, ports, s, es), i);
      RunFeeds(ctx, ports, s, init, i);
      StepFeeds(ctx, ports, before, e, i);
      ConnectedConcerns(before, e, i);
      if Concerns(before, e, i) && e.packet.fragmentId.Some? {
        FeedSnoc(s.objects[i].packetFragments, FragmentsFor(init, s.objects[i].serverSignature),
                 Fragment(e.packet.fragmentId.value, e.packet.payload));
      }
    }
  }

  lemma NothingFed(b: map<byte, seq<byte>>)
    ensures FeedAll(b, []) == b
  {}

  /**
   * End to end: a connected client with an empty buffer sends the first fragments of a message in any
   * order, with any repetitions and among any other events, and then the last one to a port with a
   * handler. If the others fit the limit, the handler is called once, with exactly that message, and
   * the buffer is empty again; if they do not, the handler never sees that message.
   */
  lemma RequestReassembled(ctx: Context, ports: set<byte>, s: State, es: seq<Event>, last: Event, i: nat,
                           parts: seq<seq<byte>>)
    requires Rc4.ValidKey(ctx.cryptoKey)
    requires Closed(s) && Inv(s) && FreshRun(ctx, ports, s, es) && Run(ctx, ports, s, es).accepted <= WRAP
    requires i < |s.objects| && IsConnected(s, i) && IsConnected(Run(ctx, ports, s, es), i)
    requires s.objects[i].packetFragments == map[]
    requires var fs := FragmentsFor(es, s.objects[i].serverSignature);
             |parts| < 256 && Among(fs, parts) && Covers(fs, parts)
    requires last.Incoming? && !IsAck(last.packet) && last.packet.packetType == DATA
    requires last.packet.signature == s.objects[i].serverSignature && last.packet.fragmentId == Some(0)
    requires VPortToByte(last.packet.destination) in ports
    ensures var before := Run(ctx, ports, s, es);
            var after := Step(ctx, ports, before, last);
            && (after.deliveries == before.deliveries + [Delivery(i, Streams.Concat(parts) + last.packet.payload)]
                <==> |Streams.Concat(parts)| <= 0x10_0000)
            && i < |after.objects| && after.objects[i].packetFragments == map[]
  {
    hide Inv, FreshRun, Step, HandleData, Among, Covers, Closed, FeedAll, Assemble, Streams.Concat, Advances;
    var before := Run(ctx, ports, s, es);
    RunKeepsInv(ctx, ports, s, es);
    RunAdvances(ctx, ports, s, es, i);
    RunFeeds(ctx, ports, s, es, i);
    AnyOrder(FragmentsFor(es, s.objects[i].serverSignature), parts, last.packet.payload);
    ConnectedConcerns(before, last, i);
    DataFeeds(ctx, before, ports, last.packet, last.from, last.env);
    DataIsHandled(ctx, ports, before, last.packet, last.from, last.env);
    StepIsHandle(ctx, ports, before, last);
    var calls := Calls(ports, last.packet, i, before.objects[i]);
    if calls != [] {
      assert (before.deliveries + calls)[|before.deliveries|] == calls[0];
    }
  }

  lemma StepIsHandle(ctx: Context, ports: set<byte>, s: State, e: Event)
    requires Closed(s) && e.Incoming?
    ensures Step(ctx, ports, s, e) == HandlePacket(ctx, ports, s, e.packet, e.from, e.env)
  {}

  /**
   * A last fragment calls the handler exactly when the buffer holds the fragments 1 to its size, with
   * their bytes in order, and leaves the buffer empty in any case.
   */
  lemma LastFragment(ctx: Context, s: State, ports: set<byte>, p: QPacket, from: Address, env: Env)
    requires Rc4.ValidKey(ctx.cryptoKey)
    requires Closed(s) && BuffersBounded(s) && p.signature in s.clients
    requires p.fragmentId == Some(0) && VPortToByte(p.destination) in ports
    ensures var t := HandleData(ctx, s, ports, p, from, env);
            var client := s.clients[p.signature];
            var fragments := s.objects[client].packetFragments;
            && |fragments| < 256
            && t.deliveries == s.deliveries + (if fragments.Keys != UpTo(|fragments|) then []
                                               else [Delivery(client, InOrder(fragments, |fragments|) + p.payload)])
            && client < |t.objects| && t.objects[client].packetFragments == map[]
  {
    hide HandleData, Assemble, InOrder;
    DataFeeds(ctx, s, ports, p, from, env);
    CompleteWhen(s.objects[s.clients[p.signature]].packetFragments, p.payload);
  }
}
