/** Where the server's packets end up: a packet passed to a connection goes to an identity to which
    its destination address was leased, in every run, whatever happens between looking the
    destination up and queueing the packet. */
module Addressing {
  import opened Bytes
  import opened LeasePool
  import opened Registry
  import opened ServerSteps

  /** The connection has an identity, and the address was leased to it. */
  predicate Leased(s: Server, c: nat, ip: string) {
    c in s.peers && s.peers[c].id != "" && (s.peers[c].id, ip) in s.leased
  }

  /** The addresses that a handler has in hand: the one that it is giving to its own connection,
      and the destination of the packet that it is passing on. */
  predicate HandOK(s: Server, c: nat)
    requires c in s.peers
  {
    match s.peers[c].phase
    case Granted(ip) => Leased(s, c, ip)
    case Offered(ip) => Leased(s, c, ip)
    case Routing(target, packet, _) => Leased(s, target, packet.dst)
    case _ => true
  }

  ghost predicate Inv(s: Server) {
    && (forall ip :: ip in s.maps.ips ==> Leased(s, s.maps.ips[ip], ip))
    && (forall c :: c in s.peers ==> HandOK(s, c))
    && (s.tun.TunRouting? ==> Leased(s, s.tun.target, s.tun.packet.dst))
    && (forall i :: 0 <= i < |s.routed| && s.routed[i].sink.ToPeer? ==>
          Leased(s, s.routed[i].sink.conn, s.routed[i].packet.dst))
  }

  /** Nothing that was leased to a connection's identity is forgotten. */
  ghost predicate Remembers(s: Server, t: Server) {
    forall c, ip :: Leased(s, c, ip) ==> Leased(t, c, ip)
  }

  lemma RemembersWhen(s: Server, t: Server, c: nat)
    requires c in s.peers && c in t.peers && s.leased <= t.leased && t.peers == s.peers[c := t.peers[c]]
    requires s.peers[c].id != "" ==> t.peers[c].id == s.peers[c].id
    ensures Remembers(s, t)
  {
  }

  /** A step that gives one connection's handler something proper to do, and routes at most one
      packet properly. */
  lemma Moved(s: Server, t: Server, c: nat)
    requires Inv(s) && Remembers(s, t) && c in s.peers && c in t.peers
    requires t.peers == s.peers[c := t.peers[c]]
    requires HandOK(t, c)
    requires forall ip :: ip in t.maps.ips ==> Leased(t, t.maps.ips[ip], ip)
    requires t.tun == s.tun
    requires t.routed == s.routed || (|t.routed| == |s.routed| + 1 && t.routed[..|s.routed|] == s.routed
             && (t.routed[|s.routed|].sink.ToPeer? ==>
                   Leased(t, t.routed[|s.routed|].sink.conn, t.routed[|s.routed|].packet.dst)))
    ensures Inv(t)
  {
    forall d | d in t.peers ensures HandOK(t, d) {
      if d != c { assert HandOK(s, d); }
    }
    forall i | 0 <= i < |t.routed| && t.routed[i].sink.ToPeer?
      ensures Leased(t, t.routed[i].sink.conn, t.routed[i].packet.dst)
    {
      if i < |s.routed| { assert t.routed[i] == s.routed[i]; }
    }
  }

  lemma QueuedKeeps(s: Server, target: nat, route: Route, preferDone: bool)
    requires Inv(s) && target in s.peers
    requires route.sink == ToPeer(target) && Leased(s, target, route.packet.dst)
    ensures match Queued(s, target, route, preferDone) case None => true case Some(t) => Inv(t)
  {
    var after := Queued(s, target, route, preferDone);
    if after.Some? && after.value != s {
      var t := after.value;
      RemembersWhen(s, t, target);
      assert HandOK(s, target);
      Moved(s, t, target);
    }
  }

  lemma EnqueueKeeps(s: Server, c: nat, preferDone: bool)
    requires Inv(s) && c in s.peers && s.peers[c].phase.Routing?
    ensures Inv(EnqueueNext(s, c, s.peers[c], preferDone))
  {
    var p := s.peers[c];
    assert HandOK(s, c);
    var back := SetPeer(s, c, p.(phase := Reading));
    RemembersWhen(s, back, c);
    Moved(s, back, c);
    hide Inv, Queued;
    QueuedKeeps(back, p.phase.target, Route(FromPeer(c, p.phase.index), p.phase.packet, ToPeer(p.phase.target)), preferDone);
  }

  lemma HandleIPKeeps(s: Server, c: nat, parsed: Option<Packet>, filtered: bool)
    requires Inv(s) && c in s.peers && s.peers[c].phase.Reading?
    ensures Inv(HandleIPNext(s, c, s.peers[c], parsed, filtered))
  {
    var t := HandleIPNext(s, c, s.peers[c], parsed, filtered);
    RemembersWhen(s, t, c);
    assert HandOK(t, c);
    hide Leased, Remembers;
    assert forall ip :: ip in t.maps.ips ==> Leased(s, t.maps.ips[ip], ip);
    LeasedStays(s, t);
    Moved(s, t, c);
  }

  lemma LeasedStays(s: Server, t: Server)
    requires Inv(s) && Remembers(s, t) && t.maps == s.maps
    ensures forall ip :: ip in t.maps.ips ==> Leased(t, t.maps.ips[ip], ip)
  {
  }

  lemma DiscoverKeeps(s: Server, c: nat, now: int)
    requires Inv(s) && Ranged(s.pool) && c in s.peers && s.peers[c].phase.Reading?
    ensures Inv(DiscoverNext(s, c, s.peers[c], now))
  {
    hide Acquire;
    var t := DiscoverNext(s, c, s.peers[c], now);
    assert s.peers[c := s.peers[c]] == s.peers;
    RemembersWhen(s, t, c);
    LeasedStays(s, t);
    assert HandOK(s, c);
    Moved(s, t, c);
  }

  lemma BindKeeps(s: Server, c: nat)
    requires Inv(s) && c in s.peers && s.peers[c].phase.Offered?
    ensures Inv(BindNext(s, c, s.peers[c]))
  {
    var t := BindNext(s, c, s.peers[c]);
    assert HandOK(s, c);
    RemembersWhen(s, t, c);
    Moved(s, t, c);
  }

  lemma RemoveKeeps(s: Server, c: nat)
    requires Inv(s) && Ranged(s.pool) && c in s.peers && s.peers[c].phase.Closing?
    ensures Inv(PeerNext(s, RemovePeer(c), c))
  {
    var p := s.peers[c];
    var t := SetPeer(s, c, p.(phase := Removed)).(maps := Remove(s.maps, c, p.id, p.vip));
    RemembersWhen(s, t, c);
    Moved(s, t, c);
    hide Inv, Remove;
    assert PeerNext(s, RemovePeer(c), c) == t;
  }

  /** The steps that change no map, no identity that is set, and no route. */
  lemma PlainKeeps(s: Server, t: Server, c: nat)
    requires Inv(s) && c in s.peers && c in t.peers && t.peers == s.peers[c := t.peers[c]]
    requires t.maps == s.maps && t.tun == s.tun && t.routed == s.routed && t.leased == s.leased
    requires s.peers[c].id != "" ==> t.peers[c].id == s.peers[c].id
    requires match t.peers[c].phase
             case Granted(_) => t.peers[c].phase == s.peers[c].phase
             case Routing(_, _, _) => t.peers[c].phase == s.peers[c].phase
             case Offered(ip) => s.peers[c].phase == Granted(ip) || s.peers[c].phase == Offered(ip)
             case _ => true
    ensures Inv(t)
  {
    RemembersWhen(s, t, c);
    LeasedStays(s, t);
    assert HandOK(s, c);
    Moved(s, t, c);
  }

  lemma EvictKeeps(s: Server, c: nat)
    requires Inv(s) && Ranged(s.pool) && c in s.peers
    ensures Inv(PeerNext(s, Evict(c), c))
  {
    hide Inv, Ranged;
    var p := s.peers[c];
    if p.phase.Evicting? && p.phase.other in s.peers {
      var back := SetPeer(s, c, p.(phase := Reading));
      PlainKeeps(s, back, c);
      PlainKeeps(back, SetPeer(back, p.phase.other, ClosePeer(back.peers[p.phase.other])), p.phase.other);
    }
  }

  lemma PlainStep(s: Server, step: Step, c: nat)
    requires Inv(s) && Ranged(s.pool) && c in s.peers && HandlerOf(step) == Some(c)
    requires step.Authenticate? || step.WriteOffer? || step.SendNext? || step.SendDone? || step.StopSending? || step.StartCleanup?
          || step.MarkOfflineStep?
    ensures Inv(PeerNext(s, step, c))
  {
    hide Inv, Ranged, MarkOffline;
    assert s.peers[c := s.peers[c]] == s.peers;
    PlainKeeps(s, PeerNext(s, step, c), c);
  }

  lemma PeerStepKeeps(s: Server, step: Step, c: nat)
    requires Inv(s) && Ranged(s.pool) && c in s.peers && HandlerOf(step) == Some(c)
    ensures Inv(PeerNext(s, step, c))
  {
    hide Inv, DiscoverNext, HandleIPNext, EnqueueNext, SendNextNext, AuthenticateNext, BindNext, Remove, MarkOffline;
    var p := s.peers[c];
    match step
    case Discover(_, now) =>
      if p.phase.Reading? { DiscoverKeeps(s, c, now); }
    case HandleIP(_, parsed, filtered) =>
      if p.phase.Reading? { HandleIPKeeps(s, c, parsed, filtered); }
    case Enqueue(_, preferDone) =>
      if p.phase.Routing? { EnqueueKeeps(s, c, preferDone); }
    case Bind(_) =>
      if p.phase.Offered? { BindKeeps(s, c); }
    case RemovePeer(_) =>
      if p.phase.Closing? { RemoveKeeps(s, c); }
    case Evict(_) => EvictKeeps(s, c);
    case _ => PlainStep(s, step, c);
  }

  lemma ConnectKeeps(s: Server, c: nat)
    requires Inv(s) && Ranged(s.pool)
    ensures Inv(Next(s, Connect(c)))
  {
    var t := Next(s, Connect(c));
    forall d | d in t.peers ensures HandOK(t, d) {
      if d in s.peers { assert HandOK(s, d); }
    }
  }

  lemma TunKeeps(s: Server, step: Step)
    requires Inv(s) && Ranged(s.pool) && (step.ReadTun? || step.EnqueueTun?)
    ensures Inv(Next(s, step))
  {
    var idle := s.(tun := TunIdle);
    assert Inv(idle) by {
      forall d | d in idle.peers ensures HandOK(idle, d) { assert HandOK(s, d); }
    }
    if step.EnqueueTun? {
      if s.tun.TunRouting? {
        hide Inv, Queued;
        QueuedKeeps(idle, s.tun.target, Route(FromTun(s.tun.index), s.tun.packet, ToPeer(s.tun.target)), step.preferDone);
      }
    } else {
      var t := Next(s, step);
      forall d | d in t.peers ensures HandOK(t, d) { assert HandOK(s, d); }
    }
  }

  lemma {:induction false} RunKeeps(s: Server, steps: seq<Step>)
    requires Inv(s) && Ranged(s.pool)
    ensures Inv(RunServer(s, steps))
  {
    if steps != [] {
      var x, step := RunServer(s, steps[..|steps| - 1]), steps[|steps| - 1];
      RunKeeps(s, steps[..|steps| - 1]);
      NextKeeps(x, step);
    }
  }

  lemma NextKeeps(s: Server, step: Step)
    requires Inv(s) && Ranged(s.pool)
    ensures Inv(Next(s, step))
  {
    match step
    case Connect(c) => ConnectKeeps(s, c);
    case ReadTun(_) => TunKeeps(s, step);
    case EnqueueTun(_) => TunKeeps(s, step);
    case SweepStep(now) =>
      hide Sweep;
      var t := Next(s, step);
      forall d | d in t.peers ensures HandOK(t, d) { assert HandOK(s, d); }
    case _ =>
      var c := HandlerOf(step).value;
      hide Inv, PeerNext;
      if c in s.peers { PeerStepKeeps(s, step, c); }
  }

  /** Over every run and every interleaving: a packet that goes to a connection's queue is addressed
      to an address that was leased to the identity of that connection, and every address in the
      registry leads to a connection to whose identity it was leased. */
  lemma NoMisdelivery(pool: Pool, gateway: bool, steps: seq<Step>)
    requires Ranged(pool)
    ensures var s := RunServer(Start(pool, gateway), steps);
            && (forall i :: 0 <= i < |s.routed| && s.routed[i].sink.ToPeer? ==>
                  Leased(s, s.routed[i].sink.conn, s.routed[i].packet.dst))
            && (forall ip :: ip in s.maps.ips ==> Leased(s, s.maps.ips[ip], ip))
  {
    RunKeeps(Start(pool, gateway), steps);
  }
}
