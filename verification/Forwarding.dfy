/**
  What the server forwards: every packet passed on is the one its sender handed in, from an
  authenticated peer to which its source address was leased; it goes to one sink; and each
  connection receives the packets of any one source in order.
 */
module Forwarding {
  import opened Bytes
  import opened LeasePool
  import opened Registry
  import opened ServerSteps

  /** The addresses that a peer owns or is about to own were leased to its identity. */
  predicate Entitled(leased: set<(string, string)>, p: Peer) {
    && (p.vip != "" ==> p.id != "" && (p.id, p.vip) in leased)
    && (p.phase.Granted? || p.phase.Offered? ==> p.id != "" && (p.id, p.phase.ip) in leased)
  }

  /** The packet is the one that the origin handed in, when its source was the sender's own address;
      and that was leased to the sender. */
  predicate Genuine(s: Server, origin: Origin, packet: Packet) {
    match origin
    case FromPeer(c, i) =>
      && c in s.peers && i < |s.peers[c].inbox| && s.peers[c].inbox[i] == Handed(Some(packet), packet.src)
      && s.peers[c].id != "" && (s.peers[c].id, packet.src) in s.leased
    case FromTun(i) => i < |s.fromTun| && s.fromTun[i] == packet
  }

  predicate SameSource(a: Origin, b: Origin) {
    match (a, b)
    case (FromPeer(c, _), FromPeer(d, _)) => c == d
    case (FromTun(_), FromTun(_)) => true
    case _ => false
  }

  /** One past the last packet of this source that may already have been routed. */
  function Frontier(s: Server, origin: Origin): nat {
    match origin
    case FromPeer(c, _) =>
      if c !in s.peers then 0
      else if s.peers[c].phase.Routing? then s.peers[c].phase.index else |s.peers[c].inbox|
    case FromTun(_) => if s.tun.TunRouting? then s.tun.index else |s.fromTun|
  }

  /** The packet in a handler's hands is the last one it read, and genuine. */
  predicate InHand(s: Server, c: nat, p: Peer) {
    p.phase.Routing? ==>
      p.phase.index + 1 == |p.inbox| && Genuine(s, FromPeer(c, p.phase.index), p.phase.packet)
  }

  predicate TunInHand(s: Server) {
    s.tun.TunRouting? ==> s.tun.index + 1 == |s.fromTun| && s.fromTun[s.tun.index] == s.tun.packet
  }

  ghost predicate RouteOK(s: Server, r: Route) {
    && Genuine(s, r.origin, r.packet) && r.origin.index < Frontier(s, r.origin)
    && (r.sink.ToPeer? ==> r.sink.conn in s.peers)
  }

  ghost predicate InOrder(routed: seq<Route>) {
    forall i, j :: 0 <= i < j < |routed| && SameSource(routed[i].origin, routed[j].origin) ==>
      routed[i].origin.index < routed[j].origin.index
  }

  /** The routes to one connection, in order. */
  function RoutesTo(routed: seq<Route>, d: nat): seq<Route> {
    if routed == [] then []
    else
      var last := routed[|routed| - 1];
      RoutesTo(routed[..|routed| - 1], d) + (if last.sink == ToPeer(d) then [last] else [])
  }

  /** What the send loop sent is what it took, up to the packet being written, or up to the write
      that failed. */
  predicate SentOK(p: Peer) {
    match p.loop
    case Waiting => p.sent == p.taken
    case Writing(r) => p.taken == p.sent + [r]
    case Stopped => p.sent <= p.taken
  }

  /** What a connection's send loop took and what still waits are the routes to it; what it sent
      is most of what it took. */
  ghost predicate QueueOK(s: Server, d: nat, p: Peer) {
    && p.taken + p.queue == RoutesTo(s.routed, d)
    && SentOK(p)
  }

  ghost predicate PeersOK(s: Server) {
    forall c :: c in s.peers ==> Entitled(s.leased, s.peers[c]) && InHand(s, c, s.peers[c])
  }

  ghost predicate RoutesOK(s: Server) {
    TunInHand(s) && InOrder(s.routed) && forall i :: 0 <= i < |s.routed| ==> RouteOK(s, s.routed[i])
  }

  ghost predicate QueuesOK(s: Server) {
    forall d :: d in s.peers ==> QueueOK(s, d, s.peers[d])
  }

  ghost predicate Inv(s: Server) {
    PeersOK(s) && RoutesOK(s) && QueuesOK(s)
  }

  /** The queues depend on the routes and on the peers' queue fields only. */
  lemma QueuesFrame(s: Server, t: Server, c: nat)
    requires QueuesOK(s) && c in s.peers && c in t.peers && t.routed == s.routed
    requires t.peers == s.peers[c := t.peers[c]]
    requires var p, q := s.peers[c], t.peers[c];
             q.taken + q.queue == p.taken + p.queue && SentOK(q)
    ensures QueuesOK(t)
  {
    forall d | d in t.peers ensures QueueOK(t, d, t.peers[d]) {
      assert QueueOK(s, d, s.peers[d]);
    }
  }

  /* ------------------------------ steps that route nothing ------------------------------ */

  /** The peer keeps what it handed in and its queue, its identity once it has one, and the packet
      in its hand if there is one. */
  predicate Steady(p: Peer, q: Peer) {
    && q.inbox == p.inbox && q.queue == p.queue && q.taken == p.taken && q.sent == p.sent
    && (q.loop == p.loop || (q.loop.Stopped? && p.loop.Waiting?))
    && (p.id != "" ==> q.id == p.id)
    && (p.phase.Routing? || q.phase.Routing? ==> q.phase == p.phase)
  }

  lemma SteadyStep(s: Server, t: Server, c: nat)
    requires Inv(s) && c in s.peers && c in t.peers && t.peers == s.peers[c := t.peers[c]]
    requires Steady(s.peers[c], t.peers[c]) && Entitled(t.leased, t.peers[c])
    requires t.routed == s.routed && t.tun == s.tun && t.fromTun == s.fromTun && s.leased <= t.leased
    ensures Inv(t)
  {
    hide RoutesTo;
    assert QueueOK(s, c, s.peers[c]);
    QueuesFrame(s, t, c);
    RoutesCarryOver(s, t);
  }

  /** Nothing of the forwarding state changes at all. */
  lemma IdleStep(s: Server, t: Server)
    requires Inv(s) && t.peers == s.peers
    requires t.routed == s.routed && t.tun == s.tun && t.fromTun == s.fromTun && t.leased == s.leased
    ensures Inv(t)
  {
    hide RoutesTo;
    RoutesCarryOver(s, t);
    forall d | d in t.peers ensures QueueOK(t, d, t.peers[d]) {
      assert QueueOK(s, d, s.peers[d]);
    }
  }

  /* ------------------------------ steps that route a packet ------------------------------ */

  lemma {:induction false} RoutesToAppend(routed: seq<Route>, r: Route, d: nat)
    ensures RoutesTo(routed + [r], d) == RoutesTo(routed, d) + (if r.sink == ToPeer(d) then [r] else [])
  {
    assert (routed + [r])[..|routed|] == routed;
  }

  lemma {:induction false} NoRoutesTo(routed: seq<Route>, d: nat)
    requires forall i :: 0 <= i < |routed| ==> routed[i].sink != ToPeer(d)
    ensures RoutesTo(routed, d) == []
  {
    if routed != [] {
      NoRoutesTo(routed[..|routed| - 1], d);
    }
  }

  /** Everything already routed stays as it was when packets are only added and frontiers only
      advance. */
  lemma RoutesCarryOver(s: Server, t: Server)
    requires Inv(s) && s.peers.Keys <= t.peers.Keys && s.leased <= t.leased && s.fromTun <= t.fromTun
    requires forall c :: c in s.peers ==>
               && s.peers[c].inbox <= t.peers[c].inbox && (s.peers[c].id != "" ==> t.peers[c].id == s.peers[c].id)
    requires forall o :: Frontier(s, o) <= Frontier(t, o)
    ensures forall i :: 0 <= i < |s.routed| ==> RouteOK(t, s.routed[i])
    ensures forall o, p :: Genuine(s, o, p) ==> Genuine(t, o, p)
  {
    forall o, p | Genuine(s, o, p) ensures Genuine(t, o, p) {
    }
    forall i | 0 <= i < |s.routed| ensures RouteOK(t, s.routed[i]) {
      assert RouteOK(s, s.routed[i]);
    }
  }

  /** One more route, at the frontier of its source, keeps the routes in order. */
  lemma RouteAtFrontier(s: Server, r: Route)
    requires Inv(s) && r.origin.index >= Frontier(s, r.origin)
    ensures InOrder(s.routed + [r])
  {
    var all := s.routed + [r];
    forall i, j | 0 <= i < j < |all| && SameSource(all[i].origin, all[j].origin)
      ensures all[i].origin.index < all[j].origin.index
    {
      if j == |s.routed| {
        assert RouteOK(s, s.routed[i]);
        assert Frontier(s, all[i].origin) == Frontier(s, r.origin);
      }
    }
  }

  lemma ConnectKeeps(s: Server, c: nat)
    requires Inv(s) && Ranged(s.pool)
    ensures Inv(Next(s, Connect(c)))
  {
    hide Ranged, PeerNext;
    var t := Next(s, Connect(c));
    if c !in s.peers {
      assert t == SetPeer(s, c, NewPeer()).(maps := AddConn(s.maps, c));
      hide Next;
      NewQueueOK(s, c);
      hide RoutesTo, QueueOK;
      RoutesCarryOver(s, t);
      assert PeersOK(t) && RoutesOK(t);
      QueuesOfOthers(s, t, c);
    }
  }

  /** Nothing has been routed to a connection that does not exist yet. */
  lemma NewQueueOK(s: Server, c: nat)
    requires Inv(s) && c !in s.peers
    ensures QueueOK(SetPeer(s, c, NewPeer()), c, NewPeer())
  {
    forall i | 0 <= i < |s.routed| ensures s.routed[i].sink != ToPeer(c) {
      assert RouteOK(s, s.routed[i]);
    }
    hide Inv;
    NoRoutesTo(s.routed, c);
  }

  lemma QueuesOfOthers(s: Server, t: Server, c: nat)
    requires QueuesOK(s) && t.routed == s.routed && c in t.peers && t.peers == s.peers[c := t.peers[c]]
    requires QueueOK(t, c, t.peers[c])
    ensures QueuesOK(t)
  {
    hide RoutesTo;
    forall d | d in t.peers ensures QueueOK(t, d, t.peers[d]) {
      if d != c { assert QueueOK(s, d, s.peers[d]); }
    }
  }

  lemma SendDoneKeeps(s: Server, c: nat, ok: bool)
    requires Inv(s) && c in s.peers
    ensures Inv(SendDoneNext(s, c, s.peers[c], ok))
  {
    hide RoutesTo, Genuine, Frontier, InOrder, TunInHand;
    var p, t := s.peers[c], SendDoneNext(s, c, s.peers[c], ok);
    if t != s {
      assert QueueOK(s, c, p);
      QueuesFrame(s, t, c);
      HistoryFrame(s, t, c);
    }
  }

  lemma SendNextKeeps(s: Server, c: nat)
    requires Inv(s) && c in s.peers
    ensures Inv(SendNextNext(s, c, s.peers[c]))
  {
    hide RoutesTo, Genuine, Frontier, InOrder, TunInHand;
    var p, t := s.peers[c], SendNextNext(s, c, s.peers[c]);
    if t != s {
      assert QueueOK(s, c, p);
      assert p.taken + p.queue == t.peers[c].taken + t.peers[c].queue;
      QueuesFrame(s, t, c);
      HistoryFrame(s, t, c);
    }
  }

  /** A peer's send side can change without touching who routed what. */
  lemma HistoryFrame(s: Server, t: Server, c: nat)
    requires PeersOK(s) && RoutesOK(s) && c in s.peers && c in t.peers
    requires t.peers == s.peers[c := s.peers[c].(queue := t.peers[c].queue, taken := t.peers[c].taken,
                                                 sent := t.peers[c].sent, loop := t.peers[c].loop,
                                                 open := t.peers[c].open, done := t.peers[c].done)]
    requires t.routed == s.routed && t.tun == s.tun && t.fromTun == s.fromTun && t.leased == s.leased
    ensures PeersOK(t) && RoutesOK(t)
  {
    hide InOrder;
    forall o, p | Genuine(s, o, p) ensures Genuine(t, o, p) {
    }
    forall i | 0 <= i < |t.routed| ensures RouteOK(t, t.routed[i]) {
      assert RouteOK(s, s.routed[i]);
    }
  }

  /** Reading a packet off a connection advances only that connection's frontier. */
  lemma ReadPacket(s: Server, c: nat, parsed: Option<Packet>)
    requires Inv(s) && c in s.peers && s.peers[c].phase.Reading?
    ensures Inv(SetPeer(s, c, s.peers[c].(inbox := s.peers[c].inbox + [Handed(parsed, s.peers[c].vip)])))
  {
    hide RoutesTo;
    var t := SetPeer(s, c, s.peers[c].(inbox := s.peers[c].inbox + [Handed(parsed, s.peers[c].vip)]));
    RoutesCarryOver(s, t);
    QueuesFrame(s, t, c) by { assert QueueOK(s, c, s.peers[c]); }
  }

  /** Taking the packet just read in hand. */
  lemma TakeInHand(s: Server, c: nat, target: nat, packet: Packet)
    requires Inv(s) && c in s.peers && s.peers[c].phase.Reading?
    requires Entitled(s.leased, s.peers[c]) && s.peers[c].vip == packet.src && packet.src != ""
    ensures var p := s.peers[c];
            Inv(SetPeer(s, c, p.(inbox := p.inbox + [Handed(Some(packet), p.vip)], phase := Routing(target, packet, |p.inbox|))))
  {
    hide RoutesTo;
    var p := s.peers[c];
    var t := SetPeer(s, c, p.(inbox := p.inbox + [Handed(Some(packet), p.vip)], phase := Routing(target, packet, |p.inbox|)));
    RoutesCarryOver(s, t);
    QueuesFrame(s, t, c) by { assert QueueOK(s, c, p); }
  }

  /** A route to the tunnel, for the packet just read. */
  lemma RouteToTun(s: Server, c: nat, packet: Packet)
    requires Inv(s) && c in s.peers && s.peers[c].phase.Reading?
    requires s.peers[c].vip == packet.src && packet.src != ""
    ensures var p := s.peers[c];
            Inv(SetPeer(s, c, p.(inbox := p.inbox + [Handed(Some(packet), p.vip)])).(
                  routed := s.routed + [Route(FromPeer(c, |p.inbox|), packet, ToTun)]))
  {
    hide RoutesTo;
    var p := s.peers[c];
    var r := Route(FromPeer(c, |p.inbox|), packet, ToTun);
    var read := SetPeer(s, c, p.(inbox := p.inbox + [Handed(Some(packet), p.vip)]));
    var t := read.(routed := s.routed + [r]);
    ReadPacket(s, c, Some(packet));
    RouteAtFrontier(s, r);
    assert Entitled(s.leased, p);
    assert RouteOK(t, r);
    AddedRoute(read, t, r);
  }

  /** Adding a genuine route behind its source's frontier, with the queue of its sink. */
  lemma AddedRoute(s: Server, t: Server, r: Route)
    requires Inv(s) && InOrder(s.routed + [r]) && RouteOK(t, r)
    requires t.routed == s.routed + [r] && t.tun == s.tun && t.fromTun == s.fromTun && t.leased == s.leased
    requires match r.sink
             case ToTun => t.peers == s.peers
             case ToPeer(d) => d in s.peers && t.peers == s.peers[d := s.peers[d].(queue := s.peers[d].queue + [r])]
    ensures Inv(t)
  {
    RoutesCarryOver(s, t);
    AddedQueues(s, t, r);
    AddedPeers(s, t, r);
    hide RoutesTo, Genuine, InOrder, QueueOK, QueuesOK, PeersOK, RouteOK;
    assert forall i :: 0 <= i < |t.routed| ==> t.routed[i] == if i < |s.routed| then s.routed[i] else r;
  }

  lemma AddedPeers(s: Server, t: Server, r: Route)
    requires PeersOK(s) && t.leased == s.leased && (forall o, p :: Genuine(s, o, p) ==> Genuine(t, o, p))
    requires match r.sink
             case ToTun => t.peers == s.peers
             case ToPeer(d) => d in s.peers && t.peers == s.peers[d := s.peers[d].(queue := s.peers[d].queue + [r])]
    ensures PeersOK(t)
  {
    hide Genuine;
  }

  lemma AddedQueues(s: Server, t: Server, r: Route)
    requires QueuesOK(s) && t.routed == s.routed + [r]
    requires match r.sink
             case ToTun => t.peers == s.peers
             case ToPeer(d) => d in s.peers && t.peers == s.peers[d := s.peers[d].(queue := s.peers[d].queue + [r])]
    ensures QueuesOK(t)
  {
    hide RoutesTo;
    forall d | d in t.peers ensures QueueOK(t, d, t.peers[d]) {
      assert QueueOK(s, d, s.peers[d]);
      RoutesToAppend(s.routed, r, d);
    }
  }

  lemma HandleIPKeeps(s: Server, c: nat, parsed: Option<Packet>, filtered: bool)
    requires Inv(s) && c in s.peers && s.peers[c].phase.Reading?
    ensures Inv(HandleIPNext(s, c, s.peers[c], parsed, filtered))
  {
    var p := s.peers[c];
    assert Entitled(s.leased, p);
    if p.id == "" {
      SteadyStep(s, HandleIPNext(s, c, p, parsed, filtered), c);
    } else {
      hide PeersOK, RoutesOK, QueuesOK;
      ReadPacket(s, c, parsed);
      if parsed.Some? && p.vip == parsed.value.src && p.vip != "" {
        RouteToTun(s, c, parsed.value);
        if parsed.value.dst in s.maps.ips {
          TakeInHand(s, c, s.maps.ips[parsed.value.dst], parsed.value);
        }
      }
    }
  }

  /** Letting go of the packet in hand advances the connection's frontier past it. */
  lemma LetGo(s: Server, c: nat)
    requires Inv(s) && c in s.peers && s.peers[c].phase.Routing?
    ensures Inv(SetPeer(s, c, s.peers[c].(phase := Reading)))
  {
    hide RoutesTo;
    var t := SetPeer(s, c, s.peers[c].(phase := Reading));
    assert InHand(s, c, s.peers[c]);
    RoutesCarryOver(s, t);
    QueuesFrame(s, t, c) by { assert QueueOK(s, c, s.peers[c]); }
  }

  lemma EnqueueKeeps(s: Server, c: nat, preferDone: bool)
    requires Inv(s) && c in s.peers && s.peers[c].phase.Routing?
    ensures Inv(EnqueueNext(s, c, s.peers[c], preferDone))
  {
    var p := s.peers[c];
    if p.phase.target in s.peers {
      var back := SetPeer(s, c, p.(phase := Reading));
      var route := Route(FromPeer(c, p.phase.index), p.phase.packet, ToPeer(p.phase.target));
      LetGo(s, c);
      assert InHand(s, c, p);
      RouteAtFrontier(s, route);
      QueuedRoute(back, route, p.phase.target, preferDone);
    }
  }

  lemma QueuedRoute(s: Server, route: Route, target: nat, preferDone: bool)
    requires Inv(s) && target in s.peers && route.sink == ToPeer(target)
    requires InOrder(s.routed + [route]) && RouteOK(s, route)
    ensures var after := Queued(s, target, route, preferDone);
            after.Some? ==> Inv(after.value)
  {
    hide PeersOK, RoutesOK, QueuesOK, InOrder;
    var after := Queued(s, target, route, preferDone);
    if after.Some? && after.value != s {
      var t := after.value;
      RoutesCarryOver(s, t);
      assert RouteOK(t, route);
      AddedRoute(s, t, route);
    }
  }

  /** The gateway pump reads a packet, or lets go of the one it holds. */
  lemma TunMoves(s: Server, t: Server)
    requires Inv(s) && t.peers == s.peers && t.routed == s.routed && t.leased == s.leased
    requires s.fromTun <= t.fromTun && TunInHand(t)
    requires Frontier(s, FromTun(0)) <= Frontier(t, FromTun(0))
    ensures Inv(t)
  {
    hide RoutesTo;
    forall o ensures Frontier(s, o) <= Frontier(t, o) {
      if o.FromTun? {
        assert Frontier(s, o) == Frontier(s, FromTun(0)) && Frontier(t, o) == Frontier(t, FromTun(0));
      }
    }
    RoutesCarryOver(s, t);
    forall d | d in t.peers ensures QueueOK(t, d, t.peers[d]) {
      assert QueueOK(s, d, s.peers[d]);
    }
  }

  lemma EnqueueTunKeeps(s: Server, preferDone: bool)
    requires Inv(s) && Ranged(s.pool)
    ensures Inv(Next(s, EnqueueTun(preferDone)))
  {
    if s.tun.TunRouting? && s.tun.target in s.peers {
      var back := s.(tun := TunIdle);
      var route := Route(FromTun(s.tun.index), s.tun.packet, ToPeer(s.tun.target));
      TunMoves(s, back);
      RouteAtFrontier(s, route);
      QueuedRoute(back, route, s.tun.target, preferDone);
    }
  }

  /* ------------------------------ the other steps ------------------------------ */

  lemma DiscoverKeeps(s: Server, c: nat, now: int)
    requires Inv(s) && Ranged(s.pool) && c in s.peers && s.peers[c].phase.Reading?
    ensures Inv(DiscoverNext(s, c, s.peers[c], now))
  {
    hide Acquire, QueuesOK, RoutesOK;
    var p, t := s.peers[c], DiscoverNext(s, c, s.peers[c], now);
    assert Entitled(s.leased, p);
    if p.id != "" && Acquire(s.pool, p.id, now).1.Err? {
      IdleStep(s, t);
    } else {
      SteadyStep(s, t, c);
    }
  }

  lemma AuthenticateKeeps(s: Server, c: nat, verified: Option<string>)
    requires Inv(s) && c in s.peers && s.peers[c].phase.Reading?
    ensures Inv(AuthenticateNext(s, c, s.peers[c], verified))
  {
    assert Entitled(s.leased, s.peers[c]);
    hide Inv;
    SteadyStep(s, AuthenticateNext(s, c, s.peers[c], verified), c);
  }

  lemma BindKeeps(s: Server, c: nat)
    requires Inv(s) && c in s.peers && s.peers[c].phase.Offered?
    ensures Inv(BindNext(s, c, s.peers[c]))
  {
    assert Entitled(s.leased, s.peers[c]);
    hide Inv;
    SteadyStep(s, BindNext(s, c, s.peers[c]), c);
  }

  lemma PlainShape(s: Server, step: Step, c: nat)
    requires Ranged(s.pool) && c in s.peers && HandlerOf(step) == Some(c)
    requires step.WriteOffer? || step.StopSending? || step.StartCleanup? || step.RemovePeer? || step.MarkOfflineStep?
    ensures var p, t := s.peers[c], PeerNext(s, step, c);
            && c in t.peers && t.peers == s.peers[c := t.peers[c]] && Steady(p, t.peers[c])
            && t.routed == s.routed && t.tun == s.tun && t.fromTun == s.fromTun && t.leased == s.leased
            && (Entitled(s.leased, p) ==> Entitled(t.leased, t.peers[c]))
  {
    hide Ranged, AuthenticateNext, BindNext, DiscoverNext, HandleIPNext, EnqueueNext, SendNextNext, SendDoneNext, Remove,
         MarkOffline;
    assert s.peers[c := s.peers[c]] == s.peers;
  }

  lemma PlainPeerStep(s: Server, step: Step, c: nat)
    requires Inv(s) && Ranged(s.pool) && c in s.peers && HandlerOf(step) == Some(c)
    requires step.WriteOffer? || step.StopSending? || step.StartCleanup? || step.RemovePeer? || step.MarkOfflineStep?
    ensures Inv(PeerNext(s, step, c))
  {
    assert Entitled(s.leased, s.peers[c]);
    hide Inv, Ranged, PeerNext, Entitled, Steady;
    PlainShape(s, step, c);
    SteadyStep(s, PeerNext(s, step, c), c);
  }

  lemma EvictKeeps(s: Server, c: nat)
    requires Inv(s) && Ranged(s.pool) && c in s.peers
    ensures Inv(PeerNext(s, Evict(c), c))
  {
    hide QueuesOK, RoutesOK;
    var p, t := s.peers[c], PeerNext(s, Evict(c), c);
    if p.phase.Evicting? && p.phase.other in s.peers {
      var back := SetPeer(s, c, p.(phase := Reading));
      assert Entitled(s.leased, p);
      SteadyStep(s, back, c);
      assert Entitled(back.leased, back.peers[p.phase.other]);
      SteadyStep(back, t, p.phase.other);
    }
  }

  lemma NextKeeps(s: Server, step: Step)
    requires Inv(s) && Ranged(s.pool)
    ensures Inv(Next(s, step))
  {
    hide Inv, DiscoverNext, HandleIPNext, EnqueueNext, SendNextNext, AuthenticateNext, BindNext, Sweep, Queued,
         TunInHand, Frontier;
    match step
    case Connect(c) => ConnectKeeps(s, c);
    case SweepStep(_) => IdleStep(s, Next(s, step));
    case ReadTun(packet) => ReadTunKeeps(s, packet);
    case EnqueueTun(preferDone) => EnqueueTunKeeps(s, preferDone);
    case _ =>
      var c := HandlerOf(step).value;
      if c in s.peers {
        PeerStepKeeps(s, step, c);
      }
  }

  lemma ReadTunKeeps(s: Server, packet: Packet)
    requires Inv(s) && Ranged(s.pool)
    ensures Inv(Next(s, ReadTun(packet)))
  {
    hide PeersOK, QueuesOK;
    TunMoves(s, Next(s, ReadTun(packet)));
  }

  lemma PeerStepKeeps(s: Server, step: Step, c: nat)
    requires Inv(s) && Ranged(s.pool) && c in s.peers && HandlerOf(step) == Some(c)
    ensures Inv(PeerNext(s, step, c))
  {
    hide Inv, DiscoverNext, HandleIPNext, EnqueueNext, SendNextNext, AuthenticateNext, BindNext, Remove, MarkOffline;
    var p := s.peers[c];
    match step
    case Discover(_, now) =>
      if p.phase.Reading? { DiscoverKeeps(s, c, now); }
    case HandleIP(_, parsed, filtered) =>
      if p.phase.Reading? { HandleIPKeeps(s, c, parsed, filtered); }
    case Enqueue(_, preferDone) =>
      if p.phase.Routing? { EnqueueKeeps(s, c, preferDone); }
    case SendNext(_) => SendNextKeeps(s, c);
    case SendDone(_, ok) => SendDoneKeeps(s, c, ok);
    case Authenticate(_, verified) =>
      if p.phase.Reading? { AuthenticateKeeps(s, c, verified); }
    case Bind(_) =>
      if p.phase.Offered? { BindKeeps(s, c); }
    case Evict(_) => EvictKeeps(s, c);
    case _ => PlainPeerStep(s, step, c);
  }

  lemma {:induction false} RunKeeps(s: Server, steps: seq<Step>)
    requires Inv(s) && Ranged(s.pool)
    ensures Inv(RunServer(s, steps))
  {
    hide Inv, Next;
    if steps != [] {
      RunKeeps(s, steps[..|steps| - 1]);
      NextKeeps(RunServer(s, steps[..|steps| - 1]), steps[|steps| - 1]);
    }
  }

  /* ------------------------------ what follows ------------------------------ */

  /** Over every run: each packet passed on is, byte for byte, the one that its source handed in;
      if that is a connection, it is authenticated and the packet's source address was leased to
      its identity. No packet is passed on twice, so each goes to one queue or to the tunnel. */
  lemma ForwardedOnce(pool: Pool, gateway: bool, steps: seq<Step>, i: nat, j: nat)
    requires Ranged(pool)
    requires i < |RunServer(Start(pool, gateway), steps).routed| && j < |RunServer(Start(pool, gateway), steps).routed|
    ensures var s := RunServer(Start(pool, gateway), steps);
            && Genuine(s, s.routed[i].origin, s.routed[i].packet)
            && (s.routed[i].origin == s.routed[j].origin ==> i == j)
  {
    var s := RunServer(Start(pool, gateway), steps);
    RunKeeps(Start(pool, gateway), steps);
    assert RouteOK(s, s.routed[i]);
    assert SameSource(s.routed[i].origin, s.routed[i].origin);
  }

  /** Over every run: a connection is sent exactly the routes to it, in order, up to some point;
      so of any one source it receives packets in the order in which they were handed in. */
  lemma ReceivedInOrder(pool: Pool, gateway: bool, steps: seq<Step>, d: nat, i: nat, j: nat)
    requires Ranged(pool)
    requires d in RunServer(Start(pool, gateway), steps).peers
    requires i < j < |RunServer(Start(pool, gateway), steps).peers[d].sent|
    ensures var s := RunServer(Start(pool, gateway), steps);
            var sent := s.peers[d].sent;
            && sent <= RoutesTo(s.routed, d)
            && sent[i].sink == ToPeer(d) && Genuine(s, sent[i].origin, sent[i].packet)
            && (SameSource(sent[i].origin, sent[j].origin) ==> sent[i].origin.index < sent[j].origin.index)
  {
    var s := RunServer(Start(pool, gateway), steps);
    RunKeeps(Start(pool, gateway), steps);
    var p := s.peers[d];
    assert QueueOK(s, d, p);
    var all := RoutesTo(s.routed, d);
    assert p.sent[i] == all[i] && p.sent[j] == all[j];
    var a, b := RoutesToPositions(s.routed, d, i, j);
    assert RouteOK(s, s.routed[a]);
  }

  /** The routes to a connection stand in the whole list of routes in the same order. */
  lemma {:induction false} RoutesToPositions(routed: seq<Route>, d: nat, i: nat, j: nat) returns (a: nat, b: nat)
    requires i < j < |RoutesTo(routed, d)|
    ensures a < b < |routed|
    ensures routed[a] == RoutesTo(routed, d)[i] && routed[b] == RoutesTo(routed, d)[j]
    ensures routed[a].sink == ToPeer(d)
  {
    var front := routed[..|routed| - 1];
    var earlier := RoutesTo(front, d);
    if j < |earlier| {
      a, b := RoutesToPositions(front, d, i, j);
    } else {
      b := |routed| - 1;
      a := RoutesToPosition(front, d, i);
    }
  }

  lemma {:induction false} RoutesToPosition(routed: seq<Route>, d: nat, i: nat) returns (a: nat)
    requires i < |RoutesTo(routed, d)|
    ensures a < |routed| && routed[a] == RoutesTo(routed, d)[i] && routed[a].sink == ToPeer(d)
  {
    var front := routed[..|routed| - 1];
    if i < |RoutesTo(front, d)| {
      a := RoutesToPosition(front, d, i);
    } else {
      a := |routed| - 1;
    }
  }
}
