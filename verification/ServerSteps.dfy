/**
  The server as a step system: the handlers of all connections, the send loops, the gateway pump
  and the lease sweeper interleave; the steps of one connection's handler are sequential.
 */
module ServerSteps {
  import opened Bytes
  import opened LeasePool
  import opened Registry

  datatype Packet = Packet(src: string, dst: string, bytes: Bytes)

  /** Where a packet came from: the connection and how many packets it had handled before, or the
      gateway's tunnel device. */
  datatype Origin = FromPeer(conn: nat, index: nat) | FromTun(index: nat)

  datatype Sink = ToPeer(conn: nat) | ToTun

  datatype Route = Route(origin: Origin, packet: Packet, sink: Sink)

  /** Where a connection's handler stands, from reading messages to the end of its cleanup. It is
      leaving once it has closed its own connection; when another one closes it, the handler may be
      about to handle a message that it has already read. */
  datatype Phase =
    | Reading
    | Leaving
    | Granted(ip: string)
    | Offered(ip: string)
    | Evicting(other: nat)
    | Routing(target: nat, packet: Packet, index: nat)
    | Closing
    | Removed
    | Gone

  /** A packet handed to handleIP (None when the header does not parse), and the sender's address
      at that moment. */
  datatype Handed = Handed(packet: Option<Packet>, vip: string)

  /** Where a peer's send loop stands: waiting for a packet, writing one, or ended. */
  datatype SendLoop = Waiting | Writing(route: Route) | Stopped

  /** inbox and taken are history: what was handed to handleIP, and the routes that the send loop
      has taken off the queue. */
  datatype Peer = Peer(
    id: string,
    vip: string,
    phase: Phase,
    open: bool,
    done: bool,
    queue: seq<Route>,
    loop: SendLoop,
    sent: seq<Route>,
    taken: seq<Route>,
    inbox: seq<Handed>)

  datatype Tun = TunIdle | TunRouting(target: nat, packet: Packet, index: nat)

  /** leased and routed are history: every (identity, address) ever granted, and every packet
      passed on, in order. */
  datatype Server = Server(
    pool: Pool,
    maps: Maps,
    peers: map<nat, Peer>,
    gateway: bool,
    tun: Tun,
    fromTun: seq<Packet>,
    leased: set<(string, string)>,
    routed: seq<Route>)

  datatype Step =
    | Connect(c: nat)
    | Authenticate(c: nat, verified: Option<string>)
    | Discover(c: nat, now: int)
    | WriteOffer(c: nat, ok: bool)
    | Bind(c: nat)
    | Evict(c: nat)
    | HandleIP(c: nat, parsed: Option<Packet>, filtered: bool)
    | Enqueue(c: nat, preferDone: bool)
    | SendNext(c: nat)
    | SendDone(c: nat, ok: bool)
    | StopSending(c: nat)
    | ReadTun(packet: Packet)
    | EnqueueTun(preferDone: bool)
    | StartCleanup(c: nat)
    | RemovePeer(c: nat)
    | MarkOfflineStep(c: nat, now: int)
    | SweepStep(now: int)

  function NewPeer(): Peer {
    Peer("", "", Reading, true, false, [], Waiting, [], [], [])
  }

  function SetPeer(s: Server, c: nat, p: Peer): Server {
    s.(peers := s.peers[c := p])
  }

  /** A handler that closes its own connection reads nothing more. */
  function LeavePeer(p: Peer): Peer {
    p.(phase := Leaving, open := false)
  }

  /** Closing a peer closes its connection; its handler notices at its next read. */
  function ClosePeer(p: Peer): Peer {
    p.(open := false, done := true)
  }

  /** Queues a route at a peer, unless the peer is closed and the queue cannot or need not take it;
      None while an open peer's queue is full, when the call waits. */
  function Queued(s: Server, target: nat, route: Route, preferDone: bool): Option<Server>
    requires target in s.peers
  {
    var t := s.peers[target];
    if t.done && (preferDone || |t.queue| >= SEND_QUEUE_SIZE) then Some(s)
    else if |t.queue| < SEND_QUEUE_SIZE
    then Some(SetPeer(s, target, t.(queue := t.queue + [route])).(routed := s.routed + [route]))
    else None
  }

  function HandlerOf(step: Step): Option<nat> {
    match step
    case Authenticate(c, _) => Some(c)
    case Discover(c, _) => Some(c)
    case WriteOffer(c, _) => Some(c)
    case Bind(c) => Some(c)
    case Evict(c) => Some(c)
    case HandleIP(c, _, _) => Some(c)
    case Enqueue(c, _) => Some(c)
    case SendNext(c) => Some(c)
    case SendDone(c, _) => Some(c)
    case StopSending(c) => Some(c)
    case StartCleanup(c) => Some(c)
    case RemovePeer(c) => Some(c)
    case MarkOfflineStep(c, _) => Some(c)
    case _ => None
  }

  /** handleClientAuth: an identity is set once; a failure closes the connection. */
  function AuthenticateNext(s: Server, c: nat, p: Peer, verified: Option<string>): Server {
    if verified.None? || verified.value == "" || (p.id != "" && p.id != verified.value)
    then SetPeer(s, c, LeavePeer(p))
    else SetPeer(s, c, p.(id := verified.value))
  }

  /** handleDHCPDiscover up to the acquired lease; without one a refusal is written. */
  function DiscoverNext(s: Server, c: nat, p: Peer, now: int): Server
    requires Ranged(s.pool)
  {
    if p.id == "" then SetPeer(s, c, LeavePeer(p))
    else
      match Acquire(s.pool, p.id, now)
      case (pool, Err(_)) => s.(pool := pool)
      case (pool, Ok(lease)) =>
        SetPeer(s, c, p.(phase := Granted(lease.ip))).(pool := pool, leased := s.leased + {(p.id, lease.ip)})
  }

  function BindNext(s: Server, c: nat, p: Peer): Server
    requires p.phase.Offered?
  {
    var ip := p.phase.ip;
    var phase := if ip in s.maps.ips && s.maps.ips[ip] != c then Evicting(s.maps.ips[ip]) else Reading;
    SetPeer(s, c, p.(vip := ip, phase := phase)).(maps := BindIP(s.maps, c, p.id, ip))
  }

  /** handleIP up to the lookup of the destination; filtered is the verdict of the broadcast and
      multicast tests on the destination. */
  function HandleIPNext(s: Server, c: nat, p: Peer, packet: Option<Packet>, filtered: bool): Server {
    if p.id == "" then SetPeer(s, c, LeavePeer(p))
    else
      var seen := p.(inbox := p.inbox + [Handed(packet, p.vip)]);
      if packet.None? || p.vip == "" || p.vip != packet.value.src || filtered then SetPeer(s, c, seen)
      else if packet.value.dst in s.maps.ips
      then SetPeer(s, c, seen.(phase := Routing(s.maps.ips[packet.value.dst], packet.value, |p.inbox|)))
      else if s.gateway
      then SetPeer(s, c, seen).(routed := s.routed + [Route(FromPeer(c, |p.inbox|), packet.value, ToTun)])
      else SetPeer(s, c, seen)
  }

  function EnqueueNext(s: Server, c: nat, p: Peer, preferDone: bool): Server
    requires c in s.peers && p == s.peers[c] && p.phase.Routing?
  {
    if p.phase.target !in s.peers then s
    else
      var route := Route(FromPeer(c, p.phase.index), p.phase.packet, ToPeer(p.phase.target));
      var back := SetPeer(s, c, p.(phase := Reading));
      match Queued(back, p.phase.target, route, preferDone)
      case None => s
      case Some(after) => after
  }

  /** peerSendLoop: the next packet off the queue, to be written to the connection. */
  function SendNextNext(s: Server, c: nat, p: Peer): Server {
    if !p.loop.Waiting? || p.queue == [] then s
    else SetPeer(s, c, p.(queue := p.queue[1..], taken := p.taken + [p.queue[0]], loop := Writing(p.queue[0])))
  }

  /** The write returns, however long it took; when it fails, the loop closes the connection and
      ends. */
  function SendDoneNext(s: Server, c: nat, p: Peer, ok: bool): Server {
    if !p.loop.Writing? then s
    else SetPeer(s, c, if ok then p.(loop := Waiting, sent := p.sent + [p.loop.route])
                       else p.(loop := Stopped, open := false))
  }

  /** The steps of the connections that exist. */
  function PeerNext(s: Server, step: Step, c: nat): (r: Server)
    requires Ranged(s.pool) && c in s.peers && HandlerOf(step) == Some(c)
    ensures Ranged(r.pool)
  {
    var p := s.peers[c];
    match step
    case Authenticate(_, verified) =>
      if p.phase.Reading? then AuthenticateNext(s, c, p, verified) else s
    case Discover(_, now) => if p.phase.Reading? then DiscoverNext(s, c, p, now) else s
    case WriteOffer(_, ok) =>
      if !p.phase.Granted? then s
      else if ok then SetPeer(s, c, p.(phase := Offered(p.phase.ip)))
      else SetPeer(s, c, LeavePeer(p))
    case Bind(_) => if p.phase.Offered? then BindNext(s, c, p) else s
    case Evict(_) =>
      if !p.phase.Evicting? || p.phase.other !in s.peers then s
      else
        var back := SetPeer(s, c, p.(phase := Reading));
        SetPeer(back, p.phase.other, ClosePeer(back.peers[p.phase.other]))
    case HandleIP(_, parsed, filtered) =>
      if p.phase.Reading? then HandleIPNext(s, c, p, parsed, filtered) else s
    case Enqueue(_, preferDone) => if p.phase.Routing? then EnqueueNext(s, c, p, preferDone) else s
    case SendNext(_) => SendNextNext(s, c, p)
    case SendDone(_, ok) => SendDoneNext(s, c, p, ok)
    case StopSending(_) => if p.done && p.loop.Waiting? then SetPeer(s, c, p.(loop := Stopped)) else s
    case StartCleanup(_) =>
      if p.phase.Reading? || p.phase.Leaving? then SetPeer(s, c, ClosePeer(p).(phase := Closing)) else s
    case RemovePeer(_) =>
      if p.phase.Closing?
      then SetPeer(s, c, p.(phase := Removed)).(maps := Remove(s.maps, c, p.id, p.vip)) else s
    case MarkOfflineStep(_, now) =>
      if p.phase.Removed?
      then SetPeer(s, c, p.(phase := Gone)).(pool := if p.id != "" then MarkOffline(s.pool, p.id, now) else s.pool)
      else s
  }

  /** A step that is not enabled leaves the server as it is. */
  function Next(s: Server, step: Step): (r: Server)
    requires Ranged(s.pool)
    ensures Ranged(r.pool)
  {
    match step
    case Connect(c) =>
      if c in s.peers then s else SetPeer(s, c, NewPeer()).(maps := AddConn(s.maps, c))
    case SweepStep(now) => s.(pool := Sweep(s.pool, now))
    case ReadTun(packet) =>
      if !s.gateway || !s.tun.TunIdle? then s
      else
        var read := s.(fromTun := s.fromTun + [packet]);
        if packet.dst in s.maps.ips then read.(tun := TunRouting(s.maps.ips[packet.dst], packet, |s.fromTun|)) else read
    case EnqueueTun(preferDone) =>
      if !s.tun.TunRouting? || s.tun.target !in s.peers then s
      else
        (match Queued(s.(tun := TunIdle), s.tun.target,
                      Route(FromTun(s.tun.index), s.tun.packet, ToPeer(s.tun.target)), preferDone)
         case None => s
         case Some(after) => after)
    case _ =>
      var c := HandlerOf(step).value;
      if c in s.peers then PeerNext(s, step, c) else s
  }

  function Start(pool: Pool, gateway: bool): Server {
    Server(pool, NO_PEERS, map[], gateway, TunIdle, [], {}, [])
  }

  function RunServer(s: Server, steps: seq<Step>): (r: Server)
    requires Ranged(s.pool)
    ensures Ranged(r.pool)
  {
    if steps == [] then s else Next(RunServer(s, steps[..|steps| - 1]), steps[|steps| - 1])
  }

  /** Evicting closes the other peer and goes back to reading. */
  lemma EvictExplicit(s: Server, c: nat)
    requires Ranged(s.pool) && c in s.peers && s.peers[c].phase.Evicting? && s.peers[c].phase.other in s.peers
    ensures var back := SetPeer(s, c, s.peers[c].(phase := Reading));
            PeerNext(s, Evict(c), c) == SetPeer(back, s.peers[c].phase.other, ClosePeer(back.peers[s.peers[c].phase.other]))
  {
    hide Ranged, SetPeer, ClosePeer;
  }

  lemma {:induction false} RunAppend(s: Server, a: seq<Step>, b: seq<Step>)
    requires Ranged(s.pool)
    ensures RunServer(s, a + b) == RunServer(RunServer(s, a), b)
  {
    if b == [] {
      assert a + b == a;
    } else {
      var n := |b| - 1;
      assert (a + b)[..|a + b| - 1] == a + b[..n];
      RunAppend(s, a, b[..n]);
    }
  }

  lemma RunPrefix(s: Server, steps: seq<Step>, k: nat)
    requires Ranged(s.pool) && k < |steps|
    ensures RunServer(s, steps[..k + 1]) == Next(RunServer(s, steps[..k]), steps[k])
  {
    assert steps[..k + 1][..k] == steps[..k];
  }
}
