/** How a client comes to be stuck: it sends packets to its own address and reads none. While the send
    loop is held up in a write, the client's packets fill its own queue, and its handler waits for room;
    then the write fails and the send loop ends. */
module SelfSend {
  import opened Bytes
  import opened Ipv4
  import opened LeasePool
  import opened Registry
  import opened ServerSteps
  import opened VpnServer
  import opened Waiting
  import LeaseBacked

  function ToSelf(ip: string): Packet {
    Packet(ip, ip, [])
  }

  /** A packet is read and queued. */
  function Round(ip: string): seq<Step> {
    [HandleIP(1, Some(ToSelf(ip)), false), Enqueue(1, false)]
  }

  function Rounds(ip: string, n: nat): seq<Step> {
    if n == 0 then [] else Rounds(ip, n - 1) + Round(ip)
  }

  const GREETING: seq<Step> := [
    Connect(1), Authenticate(1, Some("A")), Discover(1, 0), WriteOffer(1, true), Bind(1), Evict(1)]

  /** The client gets its address and sends a packet, which the send loop takes; then it fills the
      queue, and sends one more. */
  function Flood(ip: string): seq<Step> {
    GREETING + Round(ip) + [SendNext(1)] + Rounds(ip, SEND_QUEUE_SIZE) + [HandleIP(1, Some(ToSelf(ip)), false)]
  }

  /** The client is bound to the address, listening and open, its queue holds n packets, and its send
      loop is where it is. */
  predicate Floods(s: Server, ip: string, n: nat, writing: bool) {
    && Ranged(s.pool) && 1 in s.peers && ip != "" && ip in s.maps.ips && s.maps.ips[ip] == 1
    && (var p := s.peers[1];
        && p.id != "" && p.vip == ip && p.phase.Reading? && p.open && !p.done && |p.queue| == n
        && (if writing then p.loop.Writing? else p.loop.Waiting?))
  }

  lemma Greeted(pool: Pool) returns (ip: string)
    requires LeasePool.Inv(pool) && Ranged(pool) && Acquire(pool, "A", 0).1.Ok?
    ensures Floods(RunServer(Start(pool, false), GREETING), ip, 0, false)
  {
    ip := Acquire(pool, "A", 0).1.value.ip;
    LeaseBacked.AcquireBacks(pool, "A", 0);
    hide LeasePool.Inv, Acquire, Next, Ranged, DiscoverSteps;
    var s := Next(Next(Start(pool, false), Connect(1)), Authenticate(1, Some("A")));
    NewClient(pool);
    DiscoverStepsAnswer(s, 1, 0, true);
    GreetingRun(pool);
  }

  lemma NewClient(pool: Pool)
    requires Ranged(pool)
    ensures var s := Next(Next(Start(pool, false), Connect(1)), Authenticate(1, Some("A")));
            s.pool == pool && s.peers == map[1 := NewPeer().(id := "A")] && s.maps.ips == map[]
  {
    hide Ranged;
    var s1 := Next(Start(pool, false), Connect(1));
    assert s1.peers == map[1 := NewPeer()] && s1.maps.ips == map[] && s1.pool == pool;
    assert Next(s1, Authenticate(1, Some("A"))) == SetPeer(s1, 1, NewPeer().(id := "A"));
  }

  lemma GreetingRun(pool: Pool)
    requires Ranged(pool)
    ensures RunServer(Start(pool, false), GREETING)
         == DiscoverSteps(Next(Next(Start(pool, false), Connect(1)), Authenticate(1, Some("A"))), 1, 0, true)
  {
    hide Next, Ranged;
    var s := Start(pool, false);
    assert GREETING[..0] == [] && GREETING[..6] == GREETING;
    RunPrefix(s, GREETING, 0);
    RunPrefix(s, GREETING, 1);
    RunPrefix(s, GREETING, 2);
    RunPrefix(s, GREETING, 3);
    RunPrefix(s, GREETING, 4);
    RunPrefix(s, GREETING, 5);
  }

  lemma Reads(s: Server, ip: string, n: nat, writing: bool)
    requires Floods(s, ip, n, writing)
    ensures var p, t := s.peers[1], Next(s, HandleIP(1, Some(ToSelf(ip)), false));
            && t.maps == s.maps && t.pool == s.pool && 1 in t.peers
            && t.peers[1] == p.(inbox := p.inbox + [Handed(Some(ToSelf(ip)), ip)], phase := Routing(1, ToSelf(ip), |p.inbox|))
  {
    hide Ranged;
  }

  lemma Queues(s: Server, p: Peer)
    requires Ranged(s.pool) && 1 in s.peers && p == s.peers[1] && p.phase.Routing? && p.phase.target == 1
    requires !p.done && |p.queue| < SEND_QUEUE_SIZE
    ensures var t := Next(s, Enqueue(1, false));
            && t.maps == s.maps && t.pool == s.pool && 1 in t.peers
            && t.peers[1] == p.(phase := Reading,
                                queue := p.queue + [Route(FromPeer(1, p.phase.index), p.phase.packet, ToPeer(1))])
  {
    hide Ranged;
  }

  lemma OneRound(s: Server, ip: string, n: nat, writing: bool)
    requires Floods(s, ip, n, writing) && n < SEND_QUEUE_SIZE
    ensures Floods(RunServer(s, Round(ip)), ip, n + 1, writing)
  {
    hide Next, Ranged;
    Reads(s, ip, n, writing);
    var s1 := Next(s, HandleIP(1, Some(ToSelf(ip)), false));
    Queues(s1, s1.peers[1]);
    OneThenRest(s, HandleIP(1, Some(ToSelf(ip)), false), [Enqueue(1, false)]);
    OneThenRest(s1, Enqueue(1, false), []);
    assert Round(ip) == [HandleIP(1, Some(ToSelf(ip)), false)] + [Enqueue(1, false)];
  }

  lemma {:induction false} ManyRounds(s: Server, ip: string, n: nat)
    requires Floods(s, ip, 0, true) && n <= SEND_QUEUE_SIZE
    ensures Floods(RunServer(s, Rounds(ip, n)), ip, n, true)
  {
    hide Floods, Round;
    if n > 0 {
      ManyRounds(s, ip, n - 1);
      FloodsRanged(s, ip, 0);
      hide RunServer;
      OneRound(RunServer(s, Rounds(ip, n - 1)), ip, n - 1, true);
      RunAppend(s, Rounds(ip, n - 1), Round(ip));
    } else {
      FloodsRanged(s, ip, 0);
    }
  }

  lemma FloodsRanged(s: Server, ip: string, n: nat)
    requires Floods(s, ip, n, true)
    ensures Ranged(s.pool)
  {
  }

  lemma Takes(s: Server, ip: string)
    requires Floods(s, ip, 1, false)
    ensures Floods(Next(s, SendNext(1)), ip, 0, true)
  {
    hide Ranged;
  }

  lemma WriteFails(s: Server)
    requires Ranged(s.pool) && 1 in s.peers && s.peers[1].loop.Writing?
    ensures Next(s, SendDone(1, false)) == SetPeer(s, 1, s.peers[1].(loop := Stopped, open := false))
  {
    hide Ranged;
  }

  /** In every pool with an address to give: up to the failing write the connection is open; after it,
      the client's own connection is a stuck set. */
  lemma FloodJams(pool: Pool) returns (ip: string)
    requires LeasePool.Inv(pool) && Ranged(pool) && Acquire(pool, "A", 0).1.Ok?
    ensures var s := RunServer(Start(pool, false), Flood(ip));
            && 1 in s.peers && s.peers[1].open && s.peers[1].phase.Routing?
            && Stuck(Next(s, SendDone(1, false)), {1})
  {
    ip := Greeted(pool);
    var s0 := Start(pool, false);
    var s1 := RunServer(s0, GREETING);
    OneRound(s1, ip, 0, false);
    var s2 := RunServer(s1, Round(ip));
    Takes(s2, ip);
    var s3 := Next(s2, SendNext(1));
    ManyRounds(s3, ip, SEND_QUEUE_SIZE);
    var s4 := RunServer(s3, Rounds(ip, SEND_QUEUE_SIZE));
    Reads(s4, ip, SEND_QUEUE_SIZE, true);
    var s5 := Next(s4, HandleIP(1, Some(ToSelf(ip)), false));
    WriteFails(s5);
    hide RunServer, Next, Rounds, Round, Ranged;
    FloodRun(s0, ip);
  }

  lemma FloodRun(s: Server, ip: string)
    requires Ranged(s.pool)
    ensures RunServer(s, Flood(ip)) ==
            Next(RunServer(Next(RunServer(RunServer(s, GREETING), Round(ip)), SendNext(1)), Rounds(ip, SEND_QUEUE_SIZE)),
                 HandleIP(1, Some(ToSelf(ip)), false))
  {
    hide RunServer, Next, Rounds, Round, Ranged;
    var a := GREETING + Round(ip);
    var b := a + [SendNext(1)];
    var c := b + Rounds(ip, SEND_QUEUE_SIZE);
    RunAppend(s, GREETING, Round(ip));
    RunAppend(s, a, [SendNext(1)]);
    OneThenRest(RunServer(s, a), SendNext(1), []);
    RunAppend(s, b, Rounds(ip, SEND_QUEUE_SIZE));
    RunAppend(s, c, [HandleIP(1, Some(ToSelf(ip)), false)]);
    OneThenRest(RunServer(s, c), HandleIP(1, Some(ToSelf(ip)), false), []);
  }
}
