/** What becomes of a packet that the server gets, from a client or from the gateway's tunnel device: it
    ends up last in the queue of the peer that its destination leads to, or waits, or is dropped, each
    under conditions that can be read off the server before. */
module Passing {
  import opened Bytes
  import opened Registry
  import opened ServerSteps
  import LeasePool

  /** The peer can take a packet, waits are over because it is closed, or neither. */
  predicate HasRoom(p: Peer, preferDone: bool) {
    |p.queue| < SEND_QUEUE_SIZE && !(p.done && preferDone)
  }

  predicate MustWait(p: Peer) {
    |p.queue| >= SEND_QUEUE_SIZE && !p.done
  }

  function TunSteps(s: Server, packet: Packet, preferDone: bool): (r: Server)
    requires LeasePool.Ranged(s.pool)
    ensures LeasePool.Ranged(r.pool)
  {
    Next(Next(s, ReadTun(packet)), EnqueueTun(preferDone))
  }

  /** One turn of the gateway pump. A packet for a peer with room becomes the last of that peer's queue
      and of all routes; for an open peer without room it is kept until there is; for a closed one, or
      for nobody, it is dropped. Nothing else changes. */
  lemma TunPasses(s: Server, packet: Packet, preferDone: bool)
    requires LeasePool.Ranged(s.pool) && s.gateway && s.tun.TunIdle?
    requires packet.dst in s.maps.ips ==> s.maps.ips[packet.dst] in s.peers
    ensures var t := TunSteps(s, packet, preferDone);
            && t.fromTun == s.fromTun + [packet] && t.pool == s.pool && t.maps == s.maps && t.leased == s.leased
            && t.gateway == s.gateway
            && if packet.dst !in s.maps.ips then
                 t.tun.TunIdle? && t.peers == s.peers && t.routed == s.routed
               else
                 var d := s.maps.ips[packet.dst];
                 var route := Route(FromTun(|s.fromTun|), packet, ToPeer(d));
                 if HasRoom(s.peers[d], preferDone) then
                   && t.tun.TunIdle? && t.routed == s.routed + [route]
                   && t.peers == s.peers[d := s.peers[d].(queue := s.peers[d].queue + [route])]
                 else
                   && t.peers == s.peers && t.routed == s.routed
                   && t.tun == if MustWait(s.peers[d]) then TunRouting(d, packet, |s.fromTun|) else TunIdle
  {
    hide LeasePool.Ranged, PeerNext;
  }

  /** Without the gateway, or while it holds a packet, the pump reads nothing. */
  lemma TunHolds(s: Server, packet: Packet)
    requires LeasePool.Ranged(s.pool) && (!s.gateway || !s.tun.TunIdle?)
    ensures Next(s, ReadTun(packet)) == s
  {
    hide LeasePool.Ranged, PeerNext;
  }

  /** The packet is the sender's own and not for the filters. */
  predicate MayPass(p: Peer, packet: Option<Packet>, filtered: bool) {
    p.id != "" && packet.Some? && packet.value.src != "" && p.vip == packet.value.src && !filtered
  }

  lemma ReadsPacket(s: Server, c: nat, packet: Option<Packet>, filtered: bool)
    requires LeasePool.Ranged(s.pool) && c in s.peers && s.peers[c].phase.Reading?
    ensures Next(s, HandleIP(c, packet, filtered)) == HandleIPNext(s, c, s.peers[c], packet, filtered)
  {
    hide LeasePool.Ranged, HandleIPNext;
  }

  lemma PassesOn(s: Server, c: nat, preferDone: bool)
    requires LeasePool.Ranged(s.pool) && c in s.peers
    ensures Next(s, Enqueue(c, preferDone))
         == if s.peers[c].phase.Routing? then EnqueueNext(s, c, s.peers[c], preferDone) else s
  {
    hide LeasePool.Ranged, EnqueueNext;
  }

  /** A client's packet that may pass and is for a peer, be it the client itself: the same, for the peer
      that its destination leads to. */
  lemma PeerPasses(s: Server, c: nat, packet: Packet, filtered: bool, preferDone: bool)
    requires LeasePool.Ranged(s.pool) && c in s.peers && s.peers[c].phase.Reading?
    requires MayPass(s.peers[c], Some(packet), filtered)
    requires packet.dst in s.maps.ips && s.maps.ips[packet.dst] in s.peers
    ensures var p, d := s.peers[c], s.maps.ips[packet.dst];
            var route := Route(FromPeer(c, |p.inbox|), packet, ToPeer(d));
            var t := Next(Next(s, HandleIP(c, Some(packet), filtered)), Enqueue(c, preferDone));
            var read := p.(inbox := p.inbox + [Handed(Some(packet), p.vip)]);
            && t.fromTun == s.fromTun && t.pool == s.pool && t.maps == s.maps && t.leased == s.leased && t.tun == s.tun
            && if HasRoom(s.peers[d], preferDone) then
                 && t.routed == s.routed + [route]
                 && t.peers == s.peers[c := read][d := s.peers[c := read][d].(queue := s.peers[d].queue + [route])]
               else
                 && t.routed == s.routed
                 && t.peers == s.peers[c := if MustWait(s.peers[d]) then read.(phase := Routing(d, packet, |p.inbox|)) else read]
  {
    hide LeasePool.Ranged, Next;
    ReadsPacket(s, c, Some(packet), filtered);
    var s1 := HandleIPNext(s, c, s.peers[c], Some(packet), filtered);
    PassesOn(s1, c, preferDone);
    var p, d := s.peers[c], s.maps.ips[packet.dst];
    var read := p.(inbox := p.inbox + [Handed(Some(packet), p.vip)]);
    assert s1.peers == s.peers[c := read.(phase := Routing(d, packet, |p.inbox|))];
    assert s1.peers[c := read] == s.peers[c := read];
  }

  /** A packet that may not pass, or is for nobody, goes at most to the gateway's device. */
  lemma PeerDoesNotPass(s: Server, c: nat, packet: Option<Packet>, filtered: bool, preferDone: bool)
    requires LeasePool.Ranged(s.pool) && c in s.peers && s.peers[c].phase.Reading?
    requires !MayPass(s.peers[c], packet, filtered) || packet.value.dst !in s.maps.ips
    ensures var t := Next(Next(s, HandleIP(c, packet, filtered)), Enqueue(c, preferDone));
            && t.routed == s.routed + (if MayPass(s.peers[c], packet, filtered) && s.gateway
                                       then [Route(FromPeer(c, |s.peers[c].inbox|), packet.value, ToTun)] else [])
            && t.peers.Keys == s.peers.Keys && (forall d :: d in s.peers ==> t.peers[d].queue == s.peers[d].queue)
            && (t.peers[c].phase.Leaving? <==> s.peers[c].id == "")
  {
    hide LeasePool.Ranged, Next;
    ReadsPacket(s, c, packet, filtered);
    PassesOn(HandleIPNext(s, c, s.peers[c], packet, filtered), c, preferDone);
  }

  /** The send loop takes the first packet of the queue when it has none; counts it as sent exactly if
      the write succeeds; and ends, for good, exactly on a failing write, which closes the connection,
      or when it finds its peer closed between two packets. */
  lemma SendLoop(s: Server, c: nat, ok: bool)
    requires LeasePool.Ranged(s.pool) && c in s.peers
    ensures var p := s.peers[c];
            && Next(s, SendNext(c)) == (if p.loop.Waiting? && p.queue != []
                                        then SetPeer(s, c, p.(queue := p.queue[1..], taken := p.taken + [p.queue[0]],
                                                              loop := Writing(p.queue[0])))
                                        else s)
            && Next(s, SendDone(c, ok)) == (if !p.loop.Writing? then s
                                            else if ok then SetPeer(s, c, p.(loop := Waiting, sent := p.sent + [p.loop.route]))
                                            else SetPeer(s, c, p.(loop := Stopped, open := false)))
            && Next(s, StopSending(c)) == (if p.done && p.loop.Waiting? then SetPeer(s, c, p.(loop := Stopped)) else s)
  {
    hide LeasePool.Ranged, SetPeer;
  }

  lemma QueuedLoop(s: Server, target: nat, route: Route, preferDone: bool, c: nat)
    requires target in s.peers && c in s.peers
    ensures match Queued(s, target, route, preferDone)
            case None => true
            case Some(t) => c in t.peers && t.peers[c].loop == s.peers[c].loop
  {
  }

  lemma PeerStepLoop(s: Server, step: Step, d: nat, c: nat)
    requires LeasePool.Ranged(s.pool) && c in s.peers && d in s.peers && HandlerOf(step) == Some(d)
    requires (step.SendNext? || step.SendDone? || step.StopSending?) ==> d != c
    ensures c in PeerNext(s, step, d).peers && PeerNext(s, step, d).peers[c].loop == s.peers[c].loop
  {
    hide LeasePool.Ranged, LeasePool.Acquire, LeasePool.MarkOffline, Queued;
    if step.Enqueue? && s.peers[d].phase.Routing? && s.peers[d].phase.target in s.peers {
      var p := s.peers[d];
      QueuedLoop(SetPeer(s, d, p.(phase := Reading)), p.phase.target,
                 Route(FromPeer(d, p.phase.index), p.phase.packet, ToPeer(p.phase.target)), step.preferDone, c);
    }
  }

  /** No other step starts or ends a send loop. */
  lemma LoopOnlyBy(s: Server, step: Step, c: nat)
    requires LeasePool.Ranged(s.pool) && c in s.peers
    requires !(step.SendNext? && step.c == c) && !(step.SendDone? && step.c == c) && !(step.StopSending? && step.c == c)
    ensures c in Next(s, step).peers && Next(s, step).peers[c].loop == s.peers[c].loop
  {
    hide LeasePool.Ranged, LeasePool.Sweep, PeerNext, Queued;
    if HandlerOf(step).Some? {
      if HandlerOf(step).value in s.peers { PeerStepLoop(s, step, HandlerOf(step).value, c); }
    } else if step.EnqueueTun? && s.tun.TunRouting? && s.tun.target in s.peers {
      QueuedLoop(s.(tun := TunIdle), s.tun.target, Route(FromTun(s.tun.index), s.tun.packet, ToPeer(s.tun.target)),
                 step.preferDone, c);
    }
  }
}
