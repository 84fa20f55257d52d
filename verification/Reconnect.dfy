/** Why one live connection per identity matters: a client that reconnects before the server has
    cleaned up its old connection ends up bound to an address whose lease is offline. */
module Reconnect {
  import opened Bytes
  import opened Ipv4
  import opened LeasePool
  import opened Registry
  import opened ServerSteps
  import opened LeaseBacked

  /** Connection 1 obtains an address for identity A; connection 2 takes it over; then the server
      finishes the cleanup of connection 1. */
  const TAKEOVER: seq<Step> := [
    Connect(1), Authenticate(1, Some("A")), Discover(1, 0), WriteOffer(1, true), Bind(1),
    Connect(2), Authenticate(2, Some("A")), Discover(2, 1), WriteOffer(2, true), Bind(2),
    Evict(2), StartCleanup(1), RemovePeer(1), MarkOfflineStep(1, 2)]

  /** A peer of identity A, by the fields that matter here. */
  predicate IsPeer(s: Server, c: nat, vip: string, phase: Phase, open: bool) {
    && c in s.peers && s.peers[c].id == "A" && s.peers[c].vip == vip
    && s.peers[c].phase == phase && s.peers[c].open == open
  }

  ghost predicate FirstBound(s: Server, ip: string) {
    && LeasePool.Inv(s.pool) && Ranged(s.pool) && OnlineLease(s.pool, "A", ip) && ip != ""
    && s.peers.Keys == {1} && IsPeer(s, 1, ip, Reading, true)
    && s.maps.ips == map[ip := 1]
  }

  lemma FirstConnection(pool: Pool, s0: Server, s1: Server, s2: Server, s3: Server, s4: Server, s5: Server)
    returns (ip: string)
    requires LeasePool.Inv(pool) && Ranged(pool) && Acquire(pool, "A", 0).1.Ok?
    requires s0 == Start(pool, false)
    requires s1 == Next(s0, TAKEOVER[0])
    requires Ranged(s1.pool) && s2 == Next(s1, TAKEOVER[1])
    requires Ranged(s2.pool) && s3 == Next(s2, TAKEOVER[2])
    requires Ranged(s3.pool) && s4 == Next(s3, TAKEOVER[3])
    requires Ranged(s4.pool) && s5 == Next(s4, TAKEOVER[4])
    ensures FirstBound(s5, ip) && ip != ""
  {
    hide LeasePool.Inv, Acquire, Text, HandleIPNext, EnqueueNext, SendNextNext, Queued;
    AcquireBacks(pool, "A", 0);
    ip := Acquire(pool, "A", 0).1.value.ip;
    assert s1.peers == map[1 := NewPeer()] && s1.pool == pool && s1.maps.ips == map[];
    assert IsPeer(s2, 1, "", Reading, true) && s2.peers.Keys == {1} && s2.pool == pool && s2.maps.ips == map[];
    assert IsPeer(s3, 1, "", Granted(ip), true) && s3.peers.Keys == {1} && s3.maps.ips == map[];
    assert IsPeer(s4, 1, "", Offered(ip), true) && s4.peers.Keys == {1} && s4.maps.ips == map[];
  }

  ghost predicate SecondBound(s: Server, ip: string) {
    && LeasePool.Inv(s.pool) && Ranged(s.pool) && OnlineLease(s.pool, "A", ip) && ip != ""
    && s.peers.Keys == {1, 2} && IsPeer(s, 1, ip, Reading, true) && IsPeer(s, 2, ip, Evicting(1), true)
    && s.maps.ips == map[ip := 2]
  }

  /** An online lease is what acquiring again returns. */
  lemma AcquireAgain(pool: Pool, ip: string, now: int)
    requires LeasePool.Inv(pool) && Ranged(pool) && OnlineLease(pool, "A", ip)
    ensures var (after, result) := Acquire(pool, "A", now);
            && LeasePool.Inv(after) && result.Ok? && result.value.ip == ip && OnlineLease(after, "A", ip)
  {
    hide Text, LeasePool.Inv, ScanFrom;
    LeasePool.ApplyKeeps(pool, AcquireOp("A", now));
  }

  ghost predicate SecondAuthed(s: Server, ip: string) {
    && LeasePool.Inv(s.pool) && Ranged(s.pool) && OnlineLease(s.pool, "A", ip) && ip != ""
    && s.peers.Keys == {1, 2} && IsPeer(s, 1, ip, Reading, true) && IsPeer(s, 2, "", Reading, true)
    && s.maps.ips == map[ip := 1]
  }

  lemma SecondConnects(s5: Server, s6: Server, s7: Server, ip: string)
    requires FirstBound(s5, ip)
    requires s6 == Next(s5, TAKEOVER[5])
    requires Ranged(s6.pool) && s7 == Next(s6, TAKEOVER[6])
    ensures SecondAuthed(s7, ip)
  {
    hide LeasePool.Inv, OnlineLease, Text, DiscoverNext, BindNext, HandleIPNext, EnqueueNext, SendNextNext, Queued;
    assert s6.peers == s5.peers[2 := NewPeer()] && s6.pool == s5.pool && s6.maps.ips == s5.maps.ips;
  }

  ghost predicate SecondGranted(s: Server, ip: string) {
    && LeasePool.Inv(s.pool) && Ranged(s.pool) && OnlineLease(s.pool, "A", ip) && ip != ""
    && s.peers.Keys == {1, 2} && IsPeer(s, 1, ip, Reading, true) && IsPeer(s, 2, "", Granted(ip), true)
    && s.maps.ips == map[ip := 1]
  }

  lemma SecondDiscovers(s7: Server, s8: Server, ip: string)
    requires SecondAuthed(s7, ip)
    requires s8 == Next(s7, TAKEOVER[7])
    ensures SecondGranted(s8, ip)
  {
    hide LeasePool.Inv, OnlineLease, Acquire, Text, AuthenticateNext, HandleIPNext, EnqueueNext, SendNextNext, Queued;
    AcquireAgain(s7.pool, ip, 1);
  }

  lemma SecondBinds(s8: Server, s9: Server, s10: Server, ip: string)
    requires SecondGranted(s8, ip)
    requires s9 == Next(s8, TAKEOVER[8])
    requires Ranged(s9.pool) && s10 == Next(s9, TAKEOVER[9])
    ensures SecondBound(s10, ip)
  {
    hide LeasePool.Inv, OnlineLease, DiscoverNext, Text, AuthenticateNext, HandleIPNext, EnqueueNext, SendNextNext, Queued;
    assert IsPeer(s9, 2, "", Offered(ip), true) && IsPeer(s9, 1, ip, Reading, true) && s9.peers.Keys == {1, 2}
           && s9.maps.ips == s8.maps.ips && s9.pool == s8.pool;
  }

  ghost predicate FirstClosing(s: Server, ip: string) {
    && LeasePool.Inv(s.pool) && Ranged(s.pool) && ip != ""
    && IsPeer(s, 1, ip, Closing, false) && IsPeer(s, 2, ip, Reading, true) && s.maps.ips == map[ip := 2]
  }

  lemma FirstCloses(s10: Server, s11: Server, s12: Server, ip: string)
    requires SecondBound(s10, ip)
    requires s11 == Next(s10, TAKEOVER[10])
    requires Ranged(s11.pool) && s12 == Next(s11, TAKEOVER[11])
    ensures FirstClosing(s12, ip)
  {
    hide LeasePool.Inv, OnlineLease, Text, AuthenticateNext, DiscoverNext, BindNext, HandleIPNext, EnqueueNext,
         SendNextNext, Queued;
    assert IsPeer(s11, 1, ip, Reading, false) && IsPeer(s11, 2, ip, Reading, true)
           && s11.pool == s10.pool && s11.maps.ips == s10.maps.ips;
  }

  lemma LateCleanup(s12: Server, s13: Server, s14: Server, ip: string)
    requires FirstClosing(s12, ip)
    requires s13 == Next(s12, TAKEOVER[12])
    requires Ranged(s13.pool) && s14 == Next(s13, TAKEOVER[13])
    ensures IsPeer(s14, 2, ip, Reading, true) && ip in s14.maps.ips && s14.maps.ips[ip] == 2
    ensures !OnlineLease(s14.pool, "A", ip)
  {
    hide LeasePool.Inv, OnlineLease, MarkOffline, Text, AuthenticateNext, DiscoverNext, BindNext, HandleIPNext,
         EnqueueNext, SendNextNext, Queued;
    assert IsPeer(s13, 1, ip, Removed, false) && IsPeer(s13, 2, ip, Reading, true)
           && s13.pool == s12.pool && ip in s13.maps.ips && s13.maps.ips[ip] == 2;
    MarkOfflineSpares(s12.pool, "A", 2);
  }

  lemma StartsAt(pool: Pool)
    requires Ranged(pool)
    ensures After(pool, 0) == Start(pool, false)
  {
  }

  lemma OneStep(pool: Pool, k: nat)
    requires Ranged(pool) && k < 14
    ensures RunServer(Start(pool, false), TAKEOVER[..k + 1]) ==
            Next(RunServer(Start(pool, false), TAKEOVER[..k]), TAKEOVER[k])
  {
    RunPrefix(Start(pool, false), TAKEOVER, k);
  }

  function After(pool: Pool, k: nat): (s: Server)
    requires Ranged(pool) && k <= 14
    ensures Ranged(s.pool)
  {
    RunServer(Start(pool, false), TAKEOVER[..k])
  }

  /** The takeover run ends with connection 2 bound and open, and the lease of its address offline,
      whatever the pool, as long as it had an address to give. */
  lemma TakeoverLeavesLeaseOffline(pool: Pool) returns (ip: string)
    requires LeasePool.Inv(pool) && Ranged(pool) && Acquire(pool, "A", 0).1.Ok?
    ensures var s := RunServer(Start(pool, false), TAKEOVER);
            && IsPeer(s, 2, ip, Reading, true) && ip in s.maps.ips && s.maps.ips[ip] == 2
            && !OnlineLease(s.pool, "A", ip)
            && !Backed(s)
  {
    hide LeasePool.Inv, Next, Text, Acquire, RunServer, OnlineLease, FirstBound, SecondAuthed, SecondGranted, SecondBound, FirstClosing;
    forall k: nat | k < 14 ensures After(pool, k + 1) == Next(After(pool, k), TAKEOVER[k]) {
      OneStep(pool, k);
    }
    StartsAt(pool);
    ip := FirstConnection(pool, After(pool, 0), After(pool, 1), After(pool, 2), After(pool, 3), After(pool, 4), After(pool, 5));
    SecondConnects(After(pool, 5), After(pool, 6), After(pool, 7), ip);
    SecondDiscovers(After(pool, 7), After(pool, 8), ip);
    SecondBinds(After(pool, 8), After(pool, 9), After(pool, 10), ip);
    FirstCloses(After(pool, 10), After(pool, 11), After(pool, 12), ip);
    LateCleanup(After(pool, 12), After(pool, 13), After(pool, 14), ip);
    assert TAKEOVER[..14] == TAKEOVER;
    assert Holds(After(pool, 14).peers[2], ip);
  }
}
