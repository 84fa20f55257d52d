/**
  The server as an object over its registry and lease manager. Every handler, when nothing
  interrupts it, does what the step system's steps of that handler do one after the other.
 */
module VpnServer {
  import opened Bytes
  import opened Registry
  import opened ServerSteps
  import opened LeaseManager
  import opened Passing
  import Ipv4
  import Subnet
  import LeasePool

  function QueuedBytes(queue: seq<Route>): seq<Bytes> {
    seq(|queue|, i requires 0 <= i < |queue| => queue[i].packet.bytes)
  }

  datatype VDHCPMessage = Undecodable | OtherType | Discovery

  /** What a message of the server's answers a discover with. */
  datatype Reply = Offer(ip: string) | Nak | NoReply

  /** All steps of answering a discover; those that its outcome does not call for do nothing. */
  function DiscoverSteps(s: Server, c: nat, now: int, wrote: bool): (r: Server)
    requires LeasePool.Ranged(s.pool)
    ensures LeasePool.Ranged(r.pool)
  {
    Next(Next(Next(Next(s, Discover(c, now)), WriteOffer(c, wrote)), Bind(c)), Evict(c))
  }

  function PacketSteps(s: Server, c: nat, parsed: Option<Packet>, filtered: bool, preferDone: bool): (r: Server)
    requires LeasePool.Ranged(s.pool)
    ensures LeasePool.Ranged(r.pool)
  {
    Next(Next(s, HandleIP(c, parsed, filtered)), Enqueue(c, preferDone))
  }

  function CleanupSteps(s: Server, c: nat, now: int): (r: Server)
    requires LeasePool.Ranged(s.pool)
    ensures LeasePool.Ranged(r.pool)
  {
    Next(Next(Next(s, StartCleanup(c)), RemovePeer(c)), MarkOfflineStep(c, now))
  }

  /** What answering a discover comes to. */
  function Answered(s: Server, c: nat, now: int, wrote: bool): Server
    requires LeasePool.Ranged(s.pool) && c in s.peers
  {
    var p := s.peers[c];
    if p.id == "" then SetPeer(s, c, LeavePeer(p))
    else
      match LeasePool.Acquire(s.pool, p.id, now)
      case (pool, Err(_)) => s.(pool := pool)
      case (pool, Ok(lease)) =>
        var granted := s.(pool := pool, leased := s.leased + {(p.id, lease.ip)});
        if wrote then BoundTo(granted, c, lease.ip) else SetPeer(granted, c, LeavePeer(p))
  }

  /** The address leads to the peer, and the peer that it led to before is closed. */
  function BoundTo(s: Server, c: nat, ip: string): Server
    requires c in s.peers
  {
    var p := s.peers[c];
    var bound := SetPeer(s, c, p.(vip := ip)).(maps := BindIP(s.maps, c, p.id, ip));
    if ip in s.maps.ips && s.maps.ips[ip] != c && s.maps.ips[ip] in s.peers
    then SetPeer(bound, s.maps.ips[ip], ClosePeer(s.peers[s.maps.ips[ip]])) else bound
  }

  lemma PutTwice(m: map<nat, Peer>, c: nat, a: Peer, b: Peer)
    ensures m[c := a][c := b] == m[c := b]
  {
  }

  /** The steps of a handler one at a time, as they apply to a connection that exists. */
  lemma OneStep(s: Server, c: nat, now: int, ok: bool)
    requires LeasePool.Ranged(s.pool) && c in s.peers
    ensures var p := s.peers[c];
            && (p.phase.Reading? ==> Next(s, Discover(c, now)) == DiscoverNext(s, c, p, now))
            && (p.phase.Granted? ==>
                  Next(s, WriteOffer(c, ok)) == SetPeer(s, c, if ok then p.(phase := Offered(p.phase.ip))
                                                              else LeavePeer(p)))
            && (p.phase.Offered? ==> Next(s, Bind(c)) == BindNext(s, c, p))
            && (p.phase.Reading? || p.phase.Leaving? ==>
                  && Next(s, WriteOffer(c, ok)) == s && Next(s, Bind(c)) == s && Next(s, Evict(c)) == s)
  {
    hide DiscoverNext, BindNext, LeasePool.Ranged, SetPeer;
  }

  lemma EvictStep(s: Server, c: nat)
    requires LeasePool.Ranged(s.pool) && c in s.peers && s.peers[c].phase.Evicting? && s.peers[c].phase.other in s.peers
    requires s.peers[c].phase.other != c
    ensures var other := s.peers[c].phase.other;
            Next(s, Evict(c)) == SetPeer(SetPeer(s, c, s.peers[c].(phase := Reading)), other, ClosePeer(s.peers[other]))
  {
    hide LeasePool.Ranged;
  }

  /** Binding goes on to evict the peer that the address led to. */
  lemma BindSteps(s: Server, c: nat, ip: string)
    requires LeasePool.Ranged(s.pool) && c in s.peers && s.peers[c].phase == Offered(ip)
    requires s.maps.ips.Values <= s.peers.Keys
    ensures Next(Next(s, Bind(c)), Evict(c))
         == BoundTo(SetPeer(s, c, s.peers[c].(phase := Reading)), c, ip)
  {
    hide Next, BindIP, LeasePool.Ranged, ClosePeer;
    var p := s.peers[c];
    OneStep(s, c, 0, true);
    var s1 := Next(s, Bind(c));
    PutTwice(s.peers, c, p.(phase := Reading), p.(vip := ip, phase := Reading));
    OneStep(s1, c, 0, true);
    if ip in s.maps.ips && s.maps.ips[ip] != c {
      assert s.maps.ips[ip] in s.maps.ips.Values;
      EvictStep(s1, c);
      PutTwice(s.peers, c, s1.peers[c], s1.peers[c].(phase := Reading));
    }
  }

  /** A granted address goes on to be bound, or the handler leaves. */
  lemma GrantedSteps(s: Server, c: nat, ip: string, wrote: bool)
    requires LeasePool.Ranged(s.pool) && c in s.peers && s.peers[c].phase == Granted(ip)
    requires s.maps.ips.Values <= s.peers.Keys
    ensures Next(Next(Next(s, WriteOffer(c, wrote)), Bind(c)), Evict(c))
         == if wrote then BoundTo(SetPeer(s, c, s.peers[c].(phase := Reading)), c, ip)
            else SetPeer(s, c, LeavePeer(s.peers[c]))
  {
    hide Next, LeasePool.Ranged, BoundTo;
    OneStep(s, c, 0, wrote);
    var s1 := Next(s, WriteOffer(c, wrote));
    OneStep(s1, c, 0, wrote);
    if wrote {
      PutTwice(s.peers, c, s1.peers[c], s1.peers[c].(phase := Reading));
      BindSteps(s1, c, ip);
    }
  }

  lemma DiscoverStepsAnswer(s: Server, c: nat, now: int, wrote: bool)
    requires LeasePool.Ranged(s.pool) && c in s.peers && s.peers[c].phase.Reading?
    requires s.maps.ips.Values <= s.peers.Keys
    ensures DiscoverSteps(s, c, now, wrote) == Answered(s, c, now, wrote)
  {
    hide Next, LeasePool.Acquire, LeasePool.Ranged, BoundTo;
    var p := s.peers[c];
    OneStep(s, c, now, wrote);
    var s1 := DiscoverNext(s, c, p, now);
    OneStep(s1, c, now, wrote);
    if p.id == "" {
      return;
    }
    var (pool, result) := LeasePool.Acquire(s.pool, p.id, now);
    if result.Ok? {
      var ip := result.value.ip;
      var granted := s.(pool := pool, leased := s.leased + {(p.id, ip)});
      assert s1 == SetPeer(granted, c, p.(phase := Granted(ip)));
      hide DiscoverNext;
      GrantedSteps(s1, c, ip, wrote);
      PutTwice(s.peers, c, s1.peers[c], p);
      PutTwice(s.peers, c, s1.peers[c], LeavePeer(s1.peers[c]));
      assert s.peers[c := p] == s.peers;
    }
  }

  lemma CleanupStepsEffect(s: Server, c: nat, now: int)
    requires LeasePool.Ranged(s.pool) && c in s.peers && (s.peers[c].phase.Reading? || s.peers[c].phase.Leaving?)
    ensures var p := s.peers[c];
            CleanupSteps(s, c, now)
            == SetPeer(s, c, ClosePeer(p).(phase := Gone)).(
                 maps := Remove(s.maps, c, p.id, p.vip),
                 pool := if p.id != "" then LeasePool.MarkOffline(s.pool, p.id, now) else s.pool)
  {
    hide LeasePool.MarkOffline, Remove;
  }

  /** What passing a packet on comes to; while its target is open and its queue full, the handler
      waits with the packet in its hands. */
  function PassedOn(s: Server, c: nat, packet: Packet, index: nat, preferDone: bool): (r: Server)
    requires c in s.peers && s.maps.ips.Values <= s.peers.Keys
    ensures r.peers.Keys == s.peers.Keys
  {
    if packet.dst in s.maps.ips then
      var target := s.maps.ips[packet.dst];
      assert target in s.maps.ips.Values;
      match Queued(s, target, Route(FromPeer(c, index), packet, ToPeer(target)), preferDone)
      case Some(after) => after
      case None => SetPeer(s, c, s.peers[c].(phase := Routing(target, packet, index)))
    else if s.gateway then s.(routed := s.routed + [Route(FromPeer(c, index), packet, ToTun)]) else s
  }

  /** What handling a packet comes to. */
  function Passed(s: Server, c: nat, parsed: Option<Packet>, filtered: bool, preferDone: bool): Server
    requires c in s.peers && s.maps.ips.Values <= s.peers.Keys
  {
    var p := s.peers[c];
    var seen := SetPeer(s, c, p.(inbox := p.inbox + [Handed(parsed, p.vip)]));
    if p.id == "" then SetPeer(s, c, LeavePeer(p))
    else if parsed.None? || p.vip == "" || p.vip != parsed.value.src || filtered then seen
    else PassedOn(seen, c, parsed.value, |p.inbox|, preferDone)
  }

  lemma BindFacts(m: Maps, c: nat, id: string, ip: string)
    ensures var r := BindIP(m, c, id, ip);
            ip in r.ips && r.ips[ip] == c && (id != "" ==> id in r.ids && r.ids[id] == c)
  {
  }

  lemma RemoveFacts(m: Maps, c: nat, id: string, ip: string)
    ensures var r := Remove(m, c, id, ip);
            && (c in r.conns ==> r.conns[c] != c)
            && (ip != "" && ip in r.ips ==> r.ips[ip] != c)
            && (id != "" && id in r.ids ==> r.ids[id] != c)
  {
  }

  lemma OfflineFacts(pool: LeasePool.Pool, id: string, now: int)
    ensures var r := LeasePool.MarkOffline(pool, id, now);
            id in pool.leases ==>
              && id in r.leases && !r.leases[id].online && r.leases[id].expiresAt == now + pool.offlineGrace
              && r.leases[id].ip == pool.leases[id].ip
  {
  }

  lemma AuthenticateStep(s: Server, c: nat, verified: Option<string>)
    requires LeasePool.Ranged(s.pool) && c in s.peers && s.peers[c].phase.Reading?
    ensures Next(s, Authenticate(c, verified)) == AuthenticateNext(s, c, s.peers[c], verified)
  {
    hide LeasePool.Ranged, AuthenticateNext;
  }

  lemma PhaseSet(s: Server, c: nat)
    requires c in s.peers
    ensures forall phase :: SetPeer(s, c, s.peers[c].(phase := phase)).peers[c].phase == phase
  {
  }

  lemma PacketStep(s: Server, c: nat, parsed: Option<Packet>, filtered: bool, preferDone: bool)
    requires LeasePool.Ranged(s.pool) && c in s.peers
    ensures var p := s.peers[c];
            && (p.phase.Reading? ==>
                  Next(s, HandleIP(c, parsed, filtered)) == HandleIPNext(s, c, p, parsed, filtered))
            && (p.phase.Routing? ==> Next(s, Enqueue(c, preferDone)) == EnqueueNext(s, c, p, preferDone))
            && (p.phase.Reading? || p.phase.Leaving? ==> Next(s, Enqueue(c, preferDone)) == s)
  {
    hide HandleIPNext, EnqueueNext, LeasePool.Ranged, SetPeer;
  }

  lemma PacketStepsEffect(s: Server, c: nat, parsed: Option<Packet>, filtered: bool, preferDone: bool)
    requires LeasePool.Ranged(s.pool) && c in s.peers && s.peers[c].phase.Reading?
    requires s.maps.ips.Values <= s.peers.Keys
    ensures PacketSteps(s, c, parsed, filtered, preferDone) == Passed(s, c, parsed, filtered, preferDone)
  {
    hide Next, Queued, LeasePool.Ranged;
    var p := s.peers[c];
    PacketStep(s, c, parsed, filtered, preferDone);
    var s1 := Next(s, HandleIP(c, parsed, filtered));
    PacketStep(s1, c, parsed, filtered, preferDone);
    var seen := p.(inbox := p.inbox + [Handed(parsed, p.vip)]);
    PutTwice(s.peers, c, s1.peers[c], seen);
    PutTwice(s.peers, c, seen, s1.peers[c]);
  }

  /** One turn of the send loop. */
  function SendSteps(s: Server, c: nat, ok: bool): (r: Server)
    requires LeasePool.Ranged(s.pool)
    ensures LeasePool.Ranged(r.pool)
  {
    Next(Next(s, SendNext(c)), SendDone(c, ok))
  }

  lemma SendStepsEffect(s: Server, c: nat, ok: bool)
    requires LeasePool.Ranged(s.pool) && c in s.peers && s.peers[c].loop.Waiting? && s.peers[c].queue != []
    ensures var p := s.peers[c];
            var took := p.(queue := p.queue[1..], taken := p.taken + [p.queue[0]]);
            SendSteps(s, c, ok) == SetPeer(s, c, if ok then took.(sent := p.sent + [p.queue[0]])
                                                 else took.(loop := Stopped, open := false))
  {
    hide LeasePool.Ranged;
    var p := s.peers[c];
    var s1 := SetPeer(s, c, p.(queue := p.queue[1..], taken := p.taken + [p.queue[0]], loop := Writing(p.queue[0])));
    assert Next(s, SendNext(c)) == s1;
    PutTwice(s.peers, c, s1.peers[c], SendSteps(s, c, ok).peers[c]);
  }

  class VPNServer {
    const peers: PeerRegistry
    const dhcp: Manager
    const gateway: bool
    const gatewayIP: Option<Subnet.Address>
    const subnetMask: Option<Subnet.Address>
    var toTun: seq<Bytes>

    constructor (cfg: ManagerConfig, gateway: bool)
      requires ConfigProblem(cfg).None?
      ensures Shows(Start(InitialPool(cfg), gateway)) && toTun == []
      ensures fresh(peers) && fresh(dhcp) && peers.known == {}
      ensures gatewayIP == Some(Ipv4.ToBytes(cfg.gateway.value)) && subnetMask == Some(Ipv4.ToBytes(cfg.subnetMask.value))
    {
      hide LeasePool.Inv;
      this.gateway := gateway;
      gatewayIP := Some(Ipv4.ToBytes(cfg.gateway.value));
      subnetMask := Some(Ipv4.ToBytes(cfg.subnetMask.value));
      peers := new PeerRegistry();
      dhcp := new Manager(cfg);
      toTun := [];
    }

    /** A peer's fields are those of the peer of its connection. */
    ghost predicate PeerShows(p: ClientPeer, v: Peer)
      reads p
    {
      && p.id == v.id && p.virtualIP == v.vip && p.connOpen == v.open && p.done == v.done
      && p.sendQueue == QueuedBytes(v.queue)
    }

    /** The object is in the state that the step system calls s. */
    ghost predicate Shows(s: Server)
      reads peers, peers.known, dhcp, dhcp.leaseByID.Values
    {
      && LeasePool.Ranged(s.pool)
      && peers.Valid() && dhcp.Valid()
      && peers.View() == s.maps && dhcp.View() == s.pool && gateway == s.gateway
      && (forall p :: p in peers.known ==> p.conn in s.peers && PeerShows(p, s.peers[p.conn]))
    }

    /** The connection's handler is waiting for a message, or has just read one. (Its connection may
        have been closed by another handler since.) */
    ghost predicate Listens(s: Server, peer: ClientPeer)
      reads peers, peers.known, dhcp, dhcp.leaseByID.Values
    {
      Shows(s) && peer in peers.known && s.peers[peer.conn].phase.Reading?
    }

    lemma Targets(s: Server)
      requires Shows(s)
      ensures s.maps.ips.Values <= s.peers.Keys
      ensures forall ip, p :: ip in s.maps.ips && p in peers.known && p.conn == s.maps.ips[ip] ==>
                ip in peers.ips && peers.ips[ip] == p
    {
      hide Manager.Valid, Manager.View;
      forall ip | ip in s.maps.ips
        ensures s.maps.ips[ip] in s.peers && peers.ips[ip].conn == s.maps.ips[ip] && peers.ips[ip] in peers.known
      {
        assert peers.ips[ip] in peers.ips.Values;
      }
    }

    method OnTCPConnect(conn: nat, ghost s: Server) returns (peer: ClientPeer)
      requires Shows(s) && conn !in s.peers
      modifies peers
      ensures Shows(Next(s, Connect(conn)))
      ensures fresh(peer) && peer.conn == conn && peers.known == old(peers.known) + {peer}
    {
      hide LeasePool.Inv, Manager.Valid, Manager.View, Names;
      peer := new ClientPeer(conn);
      peers.AddPeer(peer);
    }

    /** verified is the outcome of checking the message: the identity, which is never empty. */
    method HandleClientAuth(peer: ClientPeer, verified: Option<string>, ghost s: Server)
      requires Listens(s, peer) && verified != Some("")
      modifies peer
      ensures Shows(Next(s, Authenticate(peer.conn, verified)))
      ensures var accepted := verified.Some? && (old(peer.id) == "" || old(peer.id) == verified.value);
              && peer.id == (if accepted then verified.value else old(peer.id))
              && peer.connOpen == (old(peer.connOpen) && accepted)
    {
      hide LeasePool.Inv, Manager.Valid, Manager.View, PeerRegistry.View, Next;
      AuthenticateStep(s, peer.conn, verified);
      if verified.None? {
        peer.CloseConn();
        return;
      }
      var ok := peer.SetIdentity(verified.value);
      if !ok {
        peer.CloseConn();
      }
    }

    /** Handles a message of the address protocol: one that cannot be decoded, or is no discover, is
        passed over. */
    method HandleVDHCP(peer: ClientPeer, msg: VDHCPMessage, now: int, wrote: bool, ghost s: Server) returns (reply: Reply)
      requires Listens(s, peer)
      modifies peers, peers.known, dhcp, dhcp.leaseByID.Values
      ensures Shows(if msg.Discovery? || old(peer.id) == "" then DiscoverSteps(s, peer.conn, now, wrote) else s)
      ensures reply.NoReply? <==> old(peer.id) == "" || !msg.Discovery?
      ensures reply.Nak? ==> LeasePool.Acquire(s.pool, old(peer.id), now).1.Err?
      ensures reply.Offer? ==>
                && LeasePool.Acquire(s.pool, old(peer.id), now).1.Ok?
                && reply.ip == LeasePool.Acquire(s.pool, old(peer.id), now).1.value.ip
                && (wrote ==> peer.virtualIP == reply.ip && Bound(s.maps, peer, reply.ip))
                && (!wrote ==> !peer.connOpen && peer.virtualIP == old(peer.virtualIP))
    {
      hide Bound, Next, DiscoverSteps, LeasePool.Acquire;
      if peer.Authed() && !msg.Discovery? {
        return NoReply;
      }
      reply := HandleDHCPDiscover(peer, now, wrote, s);
    }

    /** Answers a discover; wrote tells whether writing the offer succeeds. */
    method HandleDHCPDiscover(peer: ClientPeer, now: int, wrote: bool, ghost s: Server) returns (reply: Reply)
      requires Listens(s, peer)
      modifies peers, peers.known, dhcp, dhcp.leaseByID.Values
      ensures Shows(DiscoverSteps(s, peer.conn, now, wrote))
      ensures reply.NoReply? <==> old(peer.id) == ""
      ensures reply.Nak? ==> LeasePool.Acquire(s.pool, old(peer.id), now).1.Err?
      ensures reply.Offer? ==>
                && LeasePool.Acquire(s.pool, old(peer.id), now).1.Ok?
                && reply.ip == LeasePool.Acquire(s.pool, old(peer.id), now).1.value.ip
                && (wrote ==> peer.virtualIP == reply.ip && Bound(s.maps, peer, reply.ip))
                && (!wrote ==> !peer.connOpen && peer.virtualIP == old(peer.virtualIP))
    {
      hide LeasePool.Inv, LeasePool.Acquire, Bound, DiscoverSteps, Next, BoundTo, Manager.View, PeerRegistry.View;
      Targets(s);
      DiscoverStepsAnswer(s, peer.conn, now, wrote);
      if !peer.Authed() {
        peer.CloseConn();
        return NoReply;
      }
      var lease := dhcp.Acquire(peer.id, now);
      if lease.Err? {
        return Nak;
      }
      reply := Offer(lease.value.ip);
      ghost var pool := LeasePool.Acquire(s.pool, peer.id, now).0;
      ghost var granted := s.(pool := pool, leased := s.leased + {(peer.id, lease.value.ip)});
      assert Shows(granted);
      OfferAddress(peer, lease.value.ip, wrote, granted);
    }

    /** Writes the offer of a leased address, and binds the address once that has succeeded. */
    method OfferAddress(peer: ClientPeer, ip: string, wrote: bool, ghost s: Server)
      requires Shows(s) && peer in peers.known
      modifies peers, peers.known
      ensures Shows(if wrote then BoundTo(s, peer.conn, ip) else SetPeer(s, peer.conn, LeavePeer(s.peers[peer.conn])))
      ensures wrote ==> peer.virtualIP == ip && Bound(s.maps, peer, ip)
      ensures !wrote ==> !peer.connOpen && peer.virtualIP == old(peer.virtualIP)
    {
      hide LeasePool.Inv, Names, Bound, BoundTo, Manager.Valid, Manager.View, PeerRegistry.View;
      if !wrote {
        peer.CloseConn();
        return;
      }
      BindAddress(peer, ip, s);
    }

    /** The address and the peer's identity lead to the peer, and the peer that the address led to before,
        if that is another one, is closed. */
    ghost predicate Bound(before: Maps, peer: ClientPeer, ip: string)
      reads peers, peers.known, peer
    {
      var maps := peers.View();
      && ip in maps.ips && maps.ips[ip] == peer.conn
      && (peer.id != "" ==> peer.id in maps.ids && maps.ids[peer.id] == peer.conn)
      && (forall p :: p in peers.known && p != peer && Leads(before, ip, p) ==> p.done && !p.connOpen)
    }

    method BindAddress(peer: ClientPeer, ip: string, ghost s: Server)
      requires Shows(s) && peer in peers.known
      modifies peers, peers.known
      ensures Shows(BoundTo(s, peer.conn, ip)) && peer.virtualIP == ip && Bound(s.maps, peer, ip)
    {
      hide LeasePool.Inv, Names, Bound, BindIP, Manager.Valid, Manager.View;
      var previous := peers.Bind(peer, ip);
      if previous != null && previous != peer {
        previous.Close();
      }
      BoundToBinds(s, peer, ip);
    }

    lemma BoundToBinds(s: Server, peer: ClientPeer, ip: string)
      requires peer in peers.known && peer.conn in s.peers && peer.id == s.peers[peer.conn].id
      requires Shows(BoundTo(s, peer.conn, ip))
      requires forall p :: p in peers.known ==> p.conn in s.peers
      ensures Bound(s.maps, peer, ip)
    {
      hide LeasePool.Inv, BindIP, Manager.Valid, Manager.View, PeerRegistry.View;
      BindFacts(s.maps, peer.conn, peer.id, ip);
    }

    /** The verdict of the three tests on a packet's destination. */
    method DestinationFiltered(dst: Bytes) returns (filtered: bool)
      ensures filtered <==> Subnet.Filtered(dst, gatewayIP, subnetMask)
    {
      if Subnet.IsBroadcast(dst) || Subnet.IsMulticast(dst) {
        return true;
      }
      filtered := Subnet.IsSubnetBroadcast(Subnet.To4(dst), gatewayIP, subnetMask);
    }

    /** Handles a packet, with its destination also as the header parser hands it over; waits tells
        that the packet is for an open peer whose queue is full, and that the handler is left
        waiting for room. */
    method HandleIPPacket(peer: ClientPeer, parsed: Option<Packet>, dst: Bytes, preferDone: bool, ghost s: Server)
      returns (waits: bool)
      requires Listens(s, peer)
      modifies this, peers.known
      ensures var filtered := Subnet.Filtered(dst, gatewayIP, subnetMask);
              && Shows(PacketSteps(s, peer.conn, parsed, filtered, preferDone))
              && (waits <==> PacketSteps(s, peer.conn, parsed, filtered, preferDone).peers[peer.conn].phase.Routing?)
              && toTun == old(toTun) + if old(
                   && peer.id != "" && parsed.Some? && peer.virtualIP == parsed.value.src != "" && !filtered
                   && parsed.value.dst !in s.maps.ips && gateway) then [parsed.value.bytes] else []
      ensures var filtered := Subnet.Filtered(dst, gatewayIP, subnetMask);
              var passes := old(peer.id != "" && parsed.Some? && peer.virtualIP == parsed.value.src != "") && !filtered;
              forall p :: p in peers.known ==>
                p.sendQueue == old(p.sendQueue) + if passes && Leads(s.maps, parsed.value.dst, p) && old(Takes(p, preferDone))
                                                  then [parsed.value.bytes] else []
      ensures !old(Authed(peer)) ==> !peer.connOpen
    {
      hide LeasePool.Inv, PacketSteps, Next, PassedOn, Subnet.Filtered,
           PeerRegistry.View, PeerRegistry.Valid, Manager.View, Manager.Valid, OwnConnections;
      ghost var c := peer.conn;
      ghost var verdict := Subnet.Filtered(dst, gatewayIP, subnetMask);
      Targets(s);
      PacketStepsEffect(s, c, parsed, verdict, preferDone);
      if !peer.Authed() {
        CloseOwn(peer, s);
        return false;
      }
      ghost var p := s.peers[c];
      ghost var seen := SetPeer(s, c, p.(inbox := p.inbox + [Handed(parsed, p.vip)]));
      SeenShows(s, c, parsed);
      if parsed.None? || !peer.OwnsIP(parsed.value.src) {
        return false;
      }
      var filtered := DestinationFiltered(dst);
      if filtered {
        return false;
      }
      waits := PassOn(c, parsed.value, preferDone, seen, |p.inbox|);
    }

    /** Passes a packet of connection c's on: to the peer that its destination leads to, or else to the
        gateway's device. */
    method PassOn(ghost c: nat, packet: Packet, preferDone: bool, ghost s: Server, ghost index: nat) returns (waits: bool)
      requires Shows(s) && c in s.peers && s.maps.ips.Values <= s.peers.Keys && s.peers[c].phase.Reading?
      modifies this, peers.known
      ensures Shows(PassedOn(s, c, packet, index, preferDone))
      ensures waits <==> PassedOn(s, c, packet, index, preferDone).peers[c].phase.Routing?
      ensures toTun == old(toTun) + if packet.dst !in s.maps.ips && gateway then [packet.bytes] else []
      ensures forall p :: p in peers.known ==>
                p.sendQueue == old(p.sendQueue) + if Leads(s.maps, packet.dst, p) && old(Takes(p, preferDone))
                                                  then [packet.bytes] else []
    {
      hide LeasePool.Inv, PassedOn, Shows, PeerRegistry.View, Manager.View, Manager.Valid;
      Targets(s);
      KnownPeers(s);
      var target := peers.ByIP(packet.dst);
      if target == null {
        PassedToDevice(s, c, packet, index, preferDone);
        if gateway {
          toTun := toTun + [packet.bytes];
        }
        return false;
      }
      waits := PassToPeer(c, target, packet, preferDone, s, index);
    }

    lemma KnownPeers(s: Server)
      requires Shows(s)
      ensures peers.Valid() && peers.View() == s.maps && gateway == s.gateway
      ensures forall p :: p in peers.known ==> p.conn in s.peers
    {
      hide PeerRegistry.View, PeerRegistry.Valid, Manager.View, Manager.Valid;
    }

    /** For nobody, a packet is at most noted as routed. */
    lemma PassedToDevice(s: Server, c: nat, packet: Packet, index: nat, preferDone: bool)
      requires Shows(s) && c in s.peers && s.maps.ips.Values <= s.peers.Keys && packet.dst !in s.maps.ips
      ensures Shows(PassedOn(s, c, packet, index, preferDone))
      ensures PassedOn(s, c, packet, index, preferDone).peers == s.peers
    {
      hide Queued, PeerRegistry.View, PeerRegistry.Valid, Manager.View, Manager.Valid;
    }

    method PassToPeer(ghost c: nat, target: ClientPeer, packet: Packet, preferDone: bool, ghost s: Server, ghost index: nat)
      returns (waits: bool)
      requires Shows(s) && c in s.peers && s.maps.ips.Values <= s.peers.Keys && s.peers[c].phase.Reading?
      requires target in peers.known && Leads(s.maps, packet.dst, target)
      modifies target`sendQueue
      ensures Shows(PassedOn(s, c, packet, index, preferDone))
      ensures waits <==> PassedOn(s, c, packet, index, preferDone).peers[c].phase.Routing?
      ensures target.sendQueue == old(target.sendQueue) + if old(Takes(target, preferDone)) then [packet.bytes] else []
    {
      hide LeasePool.Inv, Queued, SetPeer, Shows, PeerRegistry.View, PeerRegistry.Valid, Manager.View, Manager.Valid;
      PhaseSet(s, c);
      waits := EnqueueAt(target, packet, preferDone, s, Route(FromPeer(c, index), packet, ToPeer(target.conn)));
      if waits {
        HandShows(s, c, Routing(target.conn, packet, index));
      }
    }

    /** What a handler has in its hands is no field of the object. */
    lemma HandShows(s: Server, c: nat, phase: Phase)
      requires Shows(s) && c in s.peers
      ensures Shows(SetPeer(s, c, s.peers[c].(phase := phase)))
    {
      hide PeerRegistry.View, PeerRegistry.Valid, Manager.View, Manager.Valid;
    }

    /** Taking note of a packet changes nothing that the object holds. */
    lemma SeenShows(s: Server, c: nat, parsed: Option<Packet>)
      requires Shows(s) && c in s.peers
      ensures var p := s.peers[c];
              Shows(SetPeer(s, c, p.(inbox := p.inbox + [Handed(parsed, p.vip)])))
    {
      hide PeerRegistry.View, PeerRegistry.Valid, Manager.View, Manager.Valid;
    }

    /** A handler closes its own connection. */
    method CloseOwn(peer: ClientPeer, ghost s: Server)
      requires Listens(s, peer)
      modifies peer
      ensures Shows(SetPeer(s, peer.conn, LeavePeer(s.peers[peer.conn]))) && peer.id == old(peer.id)
    {
      hide PeerRegistry.View, Manager.View, Manager.Valid;
      peer.CloseConn();
    }

    /** The registry leads the address to the peer. */
    predicate Leads(maps: Maps, ip: string, p: ClientPeer) {
      ip in maps.ips && maps.ips[ip] == p.conn
    }

    /** The peer's queue takes a packet at once. */
    predicate Takes(p: ClientPeer, preferDone: bool)
      reads p
    {
      |p.sendQueue| < SEND_QUEUE_SIZE && !(p.done && preferDone)
    }

    predicate Authed(p: ClientPeer)
      reads p
    {
      p.id != ""
    }

    /** One turn of the gateway pump: a packet off the tunnel device, whose header may not parse. */
    method TunToClients(parsed: Option<Packet>, preferDone: bool, ghost s: Server) returns (waits: bool)
      requires Shows(s) && gateway && s.tun.TunIdle?
      modifies peers.known
      ensures Shows(if parsed.None? then s else TunSteps(s, parsed.value, preferDone))
      ensures waits <==> parsed.Some? && TunSteps(s, parsed.value, preferDone).tun.TunRouting?
      ensures forall p :: p in peers.known ==>
                p.sendQueue == old(p.sendQueue) + if parsed.Some? && Leads(s.maps, parsed.value.dst, p) && old(Takes(p, preferDone))
                                                  then [parsed.value.bytes] else []
    {
      hide LeasePool.Inv, TunSteps, PeerRegistry.View, Manager.View, Manager.Valid;
      if parsed.None? {
        return false;
      }
      Targets(s);
      TunPasses(s, parsed.value, preferDone);
      var target := peers.ByIP(parsed.value.dst);
      if target == null {
        return false;
      }
      ghost var taken := s.(fromTun := s.fromTun + [parsed.value]);
      waits := EnqueueAt(target, parsed.value, preferDone, taken, Route(FromTun(|s.fromTun|), parsed.value, ToPeer(target.conn)));
    }

    method EnqueueAt(target: ClientPeer, packet: Packet, preferDone: bool, ghost s: Server, ghost route: Route)
      returns (waits: bool)
      requires Shows(s) && target in peers.known && route.packet == packet
      modifies target`sendQueue
      ensures target.sendQueue == old(target.sendQueue) + if old(Takes(target, preferDone)) then [packet.bytes] else []
      ensures match Queued(s, target.conn, route, preferDone)
              case Some(after) =>
                && !waits && Shows(after) && after.peers.Keys == s.peers.Keys
                && forall c :: c in s.peers ==> after.peers[c].phase == s.peers[c].phase
              case None => waits && Shows(s)
    {
      hide LeasePool.Inv, PeerRegistry.View, Manager.View, Manager.Valid;
      ghost var queue := s.peers[target.conn].queue;
      assert QueuedBytes(queue) + [packet.bytes] == QueuedBytes(queue + [route]);
      var outcome := target.Enqueue(packet.bytes, preferDone);
      return outcome.Waits?;
    }

    /** One packet of a peer's send loop; ok tells whether writing it succeeds. */
    method SendOne(peer: ClientPeer, ok: bool, ghost s: Server) returns (pkt: Bytes)
      requires Shows(s) && peer in peers.known && s.peers[peer.conn].loop.Waiting? && peer.sendQueue != []
      modifies peer
      ensures Shows(SendSteps(s, peer.conn, ok))
      ensures pkt == old(peer.sendQueue[0])
    {
      hide LeasePool.Inv, Manager.Valid, Manager.View, PeerRegistry.View, SendSteps, Next;
      SendStepsEffect(s, peer.conn, ok);
      ghost var queue := s.peers[peer.conn].queue;
      assert QueuedBytes(queue)[1..] == QueuedBytes(queue[1..]);
      pkt := peer.Dequeue();
      if !ok {
        peer.CloseConn();
      }
    }

    method CleanupPeer(peer: ClientPeer, now: int, ghost s: Server)
      requires Shows(s) && peer in peers.known
      requires s.peers[peer.conn].phase.Reading? || s.peers[peer.conn].phase.Leaving?
      modifies peers, peer, dhcp.leaseByID.Values
      ensures Shows(CleanupSteps(s, peer.conn, now))
      ensures peer.done && !peer.connOpen
      ensures var maps := peers.View();
              && (peer.conn in maps.conns ==> maps.conns[peer.conn] != peer.conn)
              && (peer.virtualIP != "" && peer.virtualIP in maps.ips ==> maps.ips[peer.virtualIP] != peer.conn)
              && (peer.id != "" && peer.id in maps.ids ==> maps.ids[peer.id] != peer.conn)
      ensures peer.id != "" && peer.id in s.pool.leases ==>
                && peer.id in dhcp.View().leases && !dhcp.View().leases[peer.id].online
                && dhcp.View().leases[peer.id].expiresAt == now + s.pool.offlineGrace
    {
      hide LeasePool.Inv, LeasePool.MarkOffline, CleanupSteps, Next, Remove, Names, Manager.View, PeerRegistry.View;
      CleanupStepsEffect(s, peer.conn, now);
      RemoveFacts(s.maps, peer.conn, peer.id, peer.virtualIP);
      OfflineFacts(s.pool, peer.id, now);
      peer.Close();
      peers.RemovePeer(peer);
      if peer.id != "" {
        dhcp.MarkOffline(peer.id, now);
      }
    }

    method SweepLeases(now: int, ghost s: Server)
      requires Shows(s)
      modifies dhcp
      ensures Shows(Next(s, SweepStep(now)))
    {
      hide LeasePool.Inv, LeasePool.Sweep;
      dhcp.SweepExpired(now);
    }
  }
}
