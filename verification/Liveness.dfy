/** How long a client stays connected: as long as it is heard from. */
module Liveness {
  import opened Basics
  import Rc4
  import opened Packets
  import opened Server
  import opened Frames
  import opened Registry
  import opened Runs

  /** Only a DATA or PING packet of its own makes a client count as seen. */
  lemma StepTimes(ctx: Context, ports: set<byte>, s: State, e: Event, i: nat)
    requires Closed(s) && i < |s.objects|
    ensures var t := Step(ctx, ports, s, e);
            && i < |t.objects|
            && t.objects[i].lastSeen == if IsHeard(s, e) && s.clients[e.packet.signature] == i then e.env.now
                                        else s.objects[i].lastSeen
  {
    hide Step, IsHeard, CarriesData;
    StepFrame(ctx, ports, s, e);
    assert ClientFramed(s, e, i, Step(ctx, ports, s, e).objects[i]);
  }

  // ---- runs ----

  /** When a DATA (type 2) or PING (type 4) packet last came under a signature, given when that was at first. */
  function LastHeard(es: seq<Event>, signature: u32, start: int): int {
    if es == [] then start else
    var e := es[|es| - 1];
    if e.Incoming? && !IsAck(e.packet) && (e.packet.packetType == 2 || e.packet.packetType == 4)
       && e.packet.signature == signature
    then e.env.now else LastHeard(es[..|es| - 1], signature, start)
  }

  /** Nobody but client `i` is listed under its signature. */
  lemma OwnSignature(s: State, i: nat, signature: u32)
    requires Inv(s) && IsConnected(s, i)
    ensures signature in s.clients ==> (s.clients[signature] == i <==> signature == s.objects[i].serverSignature)
    ensures s.objects[i].serverSignature in s.clients
  {}

  /** While a client is connected, the time it was last seen is the time of its last DATA or PING packet. */
  lemma {:induction false} RunTimes(ctx: Context, ports: set<byte>, s: State, es: seq<Event>, i: nat)
    requires Rc4.ValidKey(ctx.cryptoKey)
    requires Closed(s) && Inv(s) && FreshRun(ctx, ports, s, es) && Run(ctx, ports, s, es).accepted <= WRAP
    requires i < |s.objects| && IsConnected(s, i) && IsConnected(Run(ctx, ports, s, es), i)
    ensures Run(ctx, ports, s, es).objects[i].serverSignature == s.objects[i].serverSignature
    ensures Run(ctx, ports, s, es).objects[i].lastSeen ==
            LastHeard(es, s.objects[i].serverSignature, s.objects[i].lastSeen)
    decreases |es|
  {
    hide Inv, Step, Fresh, Closed, IsConnected, PhaseOf;
    if es == [] {
    } else {
      var init, e := es[..|es| - 1], es[|es| - 1];
      var before := Run(ctx, ports, s, init);
      StepCloses(ctx, ports, before, e);
      RunKeepsInv(ctx, ports, s, init);
      RunAdvances(ctx, ports, s, init, i);
      ConnectedPhase(s, i);
      StepAdvances(ctx, ports, before, e, i);
      StillConnected(before, Run(ctx, ports, s, es), i);
      RunTimes(ctx, ports, s, init, i);
      StepTimes(ctx, ports, before, e, i);
      if e.Incoming? {
        OwnSignature(before, i, e.packet.signature);
      }
    }
  }

  /**
   * A client that is connected when the timer fires stays connected exactly when its last DATA or PING
   * packet came at most a minute before, or there was none and it was new at most a minute before.
   */
  lemma ExpiresWhenSilent(ctx: Context, ports: set<byte>, s: State, es: seq<Event>, now: int, i: nat)
    requires Rc4.ValidKey(ctx.cryptoKey)
    requires Closed(s) && Inv(s) && FreshRun(ctx, ports, s, es) && Run(ctx, ports, s, es).accepted <= WRAP
    requires i < |s.objects| && IsConnected(s, i) && IsConnected(Run(ctx, ports, s, es), i)
    ensures IsConnected(Step(ctx, ports, Run(ctx, ports, s, es), Tick(now)), i) <==>
            now - LastHeard(es, s.objects[i].serverSignature, s.objects[i].lastSeen) <= 60_000
  {
    hide Inv, IsConnected, FreshRun, Run, LastHeard, ExpireClients;
    RunKeepsInv(ctx, ports, s, es);
    RunTimes(ctx, ports, s, es, i);
    RunAdvances(ctx, ports, s, es, i);
    TickKeepsTheLive(Run(ctx, ports, s, es), now, i);
  }
}
