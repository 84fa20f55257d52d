/** How the server itself comes to leave a stale address: a peer that asks for an address again after
    its lease has been lost is bound to a second one, and removing the peer leaves the first. */
module Rediscovery {
  import opened Bytes
  import opened Ipv4
  import opened LeasePool
  import opened Registry
  import opened ServerSteps
  import opened VpnServer

  /** When the sweep comes: after the grace period of a lease that went offline at time 1. */
  function SweepTime(pool: Pool): int {
    2 + pool.offlineGrace
  }

  /** Connection 1 obtains an address for identity A; connection 2 authenticates as A and leaves,
      which marks the lease offline; a sweep takes it away; connection 1 asks for an address again,
      and is removed. */
  function AskingAgain(pool: Pool): seq<Step> {
    var t := SweepTime(pool);
    [Connect(1), Authenticate(1, Some("A")), Discover(1, 0), WriteOffer(1, true), Bind(1), Evict(1),
     Connect(2), Authenticate(2, Some("A")), StartCleanup(2), RemovePeer(2), MarkOfflineStep(2, 1),
     SweepStep(t), Discover(1, t), WriteOffer(1, true), Bind(1), Evict(1), StartCleanup(1), RemovePeer(1)]
  }

  /* ------------------------------ the pool ------------------------------ */

  /** Nothing is leased, and there are two addresses to give. */
  ghost predicate TwoFree(pool: Pool, u: u32, v: u32) {
    && LeasePool.Inv(pool) && Ranged(pool) && pool.leases == map[] && pool.owners == map[]
    && pool.start <= u <= pool.end && pool.start <= v <= pool.end
    && Free(pool, u) && Free(pool, v) && u != v
  }

  lemma FirstLease(pool: Pool, u: u32, v: u32) returns (k: nat)
    requires TwoFree(pool, u, v)
    ensures k < Size(pool)
    ensures var (after, result) := Acquire(pool, "A", 0);
            && result.Ok? && result.value.ip == Text(At(pool, k)) && result.value.ip != ""
            && after == pool.(next := At(pool, k + 1),
                              leases := map["A" := NewLease("A", result.value.ip, 0, pool.leaseTTL)],
                              owners := map[result.value.ip := "A"])
  {
    hide Text;
    var m := AtCovers(pool, 0, u);
    assert Free(pool, At(pool, m));
    assert Expired(pool, 0) == {} && Sweep(pool, 0) == pool;
    k := ScanFrom(pool, 0).value;
    TextIsSome(At(pool, k));
  }

  lemma TextIsSome(u: u32)
    ensures Text(u) != ""
  {
  }

  /** Marked offline and swept, the pool is empty again, and the cursor has moved on. */
  lemma LeaseLost(pool: Pool, ip: string, next: u32)
    requires Ranged(pool) && pool.leases == map[] && pool.owners == map[] && pool.start <= next <= pool.end
    ensures var granted := pool.(next := next, leases := map["A" := NewLease("A", ip, 0, pool.leaseTTL)],
                                 owners := map[ip := "A"]);
            Sweep(MarkOffline(granted, "A", 1), SweepTime(pool)) == pool.(next := next)
  {
  }

  /** The next lease is for another address. */
  lemma OtherLease(pool: Pool, u: u32, v: u32, k: nat, t: int)
    requires TwoFree(pool, u, v) && k < Size(pool)
    ensures var again := Acquire(pool.(next := At(pool, k + 1)), "A", t).1;
            again.Ok? && again.value.ip != Text(At(pool, k)) && again.value.ip != ""
  {
    hide Text;
    var q := pool.(next := At(pool, k + 1));
    var w := if u == At(pool, k) then v else u;
    var m := AtCovers(q, 0, w);
    assert Free(q, At(q, m));
    assert Expired(q, t) == {} && Sweep(q, t) == q;
    var k2 := ScanFrom(q, 0).value;
    TextIsSome(At(q, k2));
    if At(q, k2) == At(pool, k) {
      AtShift(pool, k + 1, k2);
      AtRevisit(pool, k, k + 1 + k2);
    }
    if Text(At(q, k2)) == Text(At(pool, k)) {
      TextInjective(At(q, k2), At(pool, k));
    }
  }

  /* ------------------------------ the server ------------------------------ */

  /** Peer 1 is identified as A and listening, with the address; the registry leads the given
      addresses to it, and nothing else. */
  predicate Stands(s: Server, vip: string, ips: map<string, nat>) {
    && 1 in s.peers && s.peers[1].id == "A" && s.peers[1].vip == vip && s.peers[1].phase.Reading?
    && s.maps.ips == ips
  }

  lemma Arrives(pool: Pool)
    requires Ranged(pool)
    ensures var s := Next(Next(Start(pool, false), Connect(1)), Authenticate(1, Some("A")));
            s.pool == pool && s.peers.Keys == {1} && Stands(s, "", map[])
  {
    hide Ranged;
    var s1 := Next(Start(pool, false), Connect(1));
    assert s1.peers == map[1 := NewPeer()] && s1.maps.ips == map[] && s1.pool == pool;
    OneAuthenticates(s1, 1);
  }

  lemma OneAuthenticates(s: Server, c: nat)
    requires Ranged(s.pool) && c in s.peers && s.peers[c].id == "" && s.peers[c].phase.Reading?
    ensures Next(s, Authenticate(c, Some("A"))) == SetPeer(s, c, s.peers[c].(id := "A"))
  {
    hide Ranged;
  }

  /** Asking for an address binds the leased one, beside those that led to the peer before. */
  lemma Asks(s: Server, vip: string, ips: map<string, nat>, now: int, ip: string)
    requires Ranged(s.pool) && Stands(s, vip, ips) && ips.Values <= {1}
    requires var result := Acquire(s.pool, "A", now).1; result.Ok? && result.value.ip == ip
    ensures var t := DiscoverSteps(s, 1, now, true);
            t.pool == Acquire(s.pool, "A", now).0 && t.peers.Keys == s.peers.Keys && Stands(t, ip, ips[ip := 1])
  {
    hide Acquire, DiscoverSteps, Next, Ranged;
    DiscoverStepsAnswer(s, 1, now, true);
    assert ip in ips ==> ips[ip] in ips.Values;
  }

  /** Another connection comes as A and goes. */
  ghost function Visit(s: Server, now: int): (r: Server)
    requires Ranged(s.pool)
    ensures Ranged(r.pool)
  {
    CleanupSteps(Next(Next(s, Connect(2)), Authenticate(2, Some("A"))), 2, now)
  }

  lemma Visited(s: Server, ip: string, now: int)
    requires Ranged(s.pool) && s.peers.Keys == {1} && Stands(s, ip, map[ip := 1])
    ensures var t := Visit(s, now);
            t.pool == MarkOffline(s.pool, "A", now) && Stands(t, ip, map[ip := 1])
  {
    hide Ranged, CleanupSteps, MarkOffline;
    var s1 := Next(s, Connect(2));
    assert s1 == SetPeer(s, 2, NewPeer()).(maps := AddConn(s.maps, 2));
    OneAuthenticates(s1, 2);
    var s2 := SetPeer(s1, 2, s1.peers[2].(id := "A"));
    CleanupStepsEffect(s2, 2, now);
  }

  /** Removing the peer takes its last address away and leaves the one before. */
  lemma Leaves(s: Server, ip1: string, ip2: string)
    requires Ranged(s.pool) && Stands(s, ip2, map[ip1 := 1, ip2 := 1]) && ip1 != ip2 && ip2 != ""
    ensures var t := Next(Next(s, StartCleanup(1)), RemovePeer(1));
            && 1 in t.peers && t.peers[1].phase.Removed? && t.peers[1].vip == ip2
            && ip1 in t.maps.ips && t.maps.ips[ip1] == 1 && ip2 !in t.maps.ips
  {
    hide Ranged;
    var s1 := Next(s, StartCleanup(1));
    assert s1 == SetPeer(s, 1, ClosePeer(s.peers[1]).(phase := Closing));
  }

  function After(pool: Pool, k: nat): (s: Server)
    requires Ranged(pool) && k <= 18
    ensures Ranged(s.pool)
  {
    RunServer(Start(pool, false), AskingAgain(pool)[..k])
  }

  lemma AfterStep(pool: Pool, k: nat)
    requires Ranged(pool) && k < 18
    ensures After(pool, k + 1) == Next(After(pool, k), AskingAgain(pool)[k])
  {
    RunPrefix(Start(pool, false), AskingAgain(pool), k);
  }

  lemma Ends(pool: Pool)
    requires Ranged(pool)
    ensures After(pool, 0) == Start(pool, false)
    ensures After(pool, 18) == RunServer(Start(pool, false), AskingAgain(pool))
  {
    assert AskingAgain(pool)[..0] == [] && AskingAgain(pool)[..18] == AskingAgain(pool);
  }

  lemma FirstStage(pool: Pool)
    requires Ranged(pool)
    ensures After(pool, 6) == DiscoverSteps(Next(Next(After(pool, 0), Connect(1)), Authenticate(1, Some("A"))), 1, 0, true)
  {
    hide Next, Ranged, After;
    AfterStep(pool, 0); AfterStep(pool, 1); AfterStep(pool, 2); AfterStep(pool, 3); AfterStep(pool, 4); AfterStep(pool, 5);
  }

  lemma SecondStage(pool: Pool)
    requires Ranged(pool)
    ensures After(pool, 11) == Visit(After(pool, 6), 1)
  {
    hide Next, Ranged, After;
    AfterStep(pool, 6); AfterStep(pool, 7); AfterStep(pool, 8); AfterStep(pool, 9); AfterStep(pool, 10);
  }

  lemma ThirdStage(pool: Pool)
    requires Ranged(pool)
    ensures After(pool, 16) == DiscoverSteps(Next(After(pool, 11), SweepStep(SweepTime(pool))), 1, SweepTime(pool), true)
  {
    hide Next, Ranged, After;
    AfterStep(pool, 11); AfterStep(pool, 12); AfterStep(pool, 13); AfterStep(pool, 14); AfterStep(pool, 15);
  }

  lemma LastStage(pool: Pool)
    requires Ranged(pool)
    ensures After(pool, 18) == Next(Next(After(pool, 16), StartCleanup(1)), RemovePeer(1))
  {
    hide Next, Ranged, After;
    AfterStep(pool, 16); AfterStep(pool, 17);
  }

  lemma Sweeps(s: Server, now: int)
    requires Ranged(s.pool)
    ensures Next(s, SweepStep(now)) == s.(pool := Sweep(s.pool, now))
  {
    hide Sweep, Ranged;
  }

  /** In that run, peer 1 ends up removed, and the registry still leads its first address to it:
      in every pool in which nothing is leased and two addresses are free. */
  lemma AskingAgainLeavesStaleAddress(pool: Pool, u: u32, v: u32) returns (ip: string)
    requires TwoFree(pool, u, v)
    ensures var s := RunServer(Start(pool, false), AskingAgain(pool));
            && 1 in s.peers && s.peers[1].phase.Removed? && s.peers[1].vip != ip
            && ip in s.maps.ips && s.maps.ips[ip] == 1
  {
    var k := FirstLease(pool, u, v);
    var t := SweepTime(pool);
    ip := Text(At(pool, k));
    LeaseLost(pool, ip, At(pool, k + 1));
    OtherLease(pool, u, v, k, t);
    hide Next, Ranged, Acquire, Text, TwoFree, Sweep, MarkOffline, DiscoverSteps, RunServer, After, Visit, At, Stands;
    Ends(pool);
    FirstStage(pool);
    SecondStage(pool);
    ThirdStage(pool);
    LastStage(pool);
    Arrives(pool);
    Asks(Next(Next(After(pool, 0), Connect(1)), Authenticate(1, Some("A"))), "", map[], 0, ip);
    Visited(After(pool, 6), ip, 1);
    Sweeps(After(pool, 11), t);
    var swept := Next(After(pool, 11), SweepStep(t));
    SameStand(After(pool, 11), swept, ip);
    var ip2 := Acquire(pool.(next := At(pool, k + 1)), "A", t).1.value.ip;
    Asks(swept, ip, map[ip := 1], t, ip2);
    Leaves(After(pool, 16), ip, ip2);
  }

  lemma SameStand(s: Server, t: Server, ip: string)
    requires Stands(s, ip, map[ip := 1]) && t == s.(pool := t.pool)
    ensures Stands(t, ip, map[ip := 1])
  {
  }
}
