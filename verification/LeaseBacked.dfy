/**
  When every address that a peer holds is backed by an online lease: exactly as long as no connection
  marks an identity offline that another connection is still using. Peers hold addresses before they
  are bound to them, and after they have been evicted until they are cleaned up; what the registry
  leads to is the subject of RegistryBacked.
 */
module LeaseBacked {
  import opened Bytes
  import opened Ipv4
  import opened LeasePool
  import opened Registry
  import opened ServerSteps

  /** The peer holds the address: it was granted and is about to be offered or bound, or it is
      bound and the peer not yet removed. */
  predicate Holds(p: Peer, ip: string) {
    || p.phase == Granted(ip)
    || p.phase == Offered(ip)
    || (p.vip == ip && ip != "" && !p.phase.Removed? && !p.phase.Gone?)
  }

  predicate OnlineLease(pool: Pool, id: string, ip: string) {
    id in pool.leases && pool.leases[id].online && pool.leases[id].ip == ip
  }

  /** Whatever address a peer holds is online and leased to its identity. */
  ghost predicate Backed(s: Server) {
    forall c, ip :: c in s.peers && Holds(s.peers[c], ip) ==> OnlineLease(s.pool, s.peers[c].id, ip)
  }

  /** The maps agree with the peers, and a peer holds addresses only under an identity. */
  ghost predicate Tidy(s: Server) {
    && (forall ip :: ip in s.maps.ips ==>
          var c := s.maps.ips[ip];
          c in s.peers && s.peers[c].vip == ip && ip != "" && !s.peers[c].phase.Removed? && !s.peers[c].phase.Gone?)
    && (forall c :: c in s.peers && s.peers[c].id == "" ==>
          && s.peers[c].vip == "" && !s.peers[c].phase.Granted? && !s.peers[c].phase.Offered?)
  }

  ghost predicate Good(s: Server) {
    LeasePool.Inv(s.pool) && Tidy(s) && Backed(s)
  }

  lemma GoodIsRanged(s: Server)
    requires Good(s)
    ensures Ranged(s.pool)
  {
  }

  /** The other connection is still using the identity that a cleanup is about to mark offline. */
  predicate StillUsed(s: Server, c: nat, d: nat) {
    && c in s.peers && d in s.peers && d != c && s.peers[d].id == s.peers[c].id && s.peers[c].id != ""
    && (s.peers[d].phase.Granted? || s.peers[d].phase.Offered?
        || (s.peers[d].vip != "" && !s.peers[d].phase.Removed? && !s.peers[d].phase.Gone?))
  }

  /** If the step marks an identity offline, no other connection is using it. */
  ghost predicate CleansUpAlone(s: Server, step: Step) {
    step.MarkOfflineStep? && step.c in s.peers && s.peers[step.c].phase.Removed? ==>
      forall d :: !StillUsed(s, step.c, d)
  }

  /* ------------------------------ what the pool operations leave alone ------------------------------ */

  lemma AcquireSpares(pool: Pool, id: string, now: int)
    requires LeasePool.Inv(pool)
    ensures LeasePool.Inv(Acquire(pool, id, now).0)
    ensures forall x, ip :: OnlineLease(pool, x, ip) ==> OnlineLease(Acquire(pool, id, now).0, x, ip)
  {
    hide Text, ScanFrom, At, InPool;
    LeasePool.ApplyKeeps(pool, AcquireOp(id, now));
    forall x, ip | OnlineLease(pool, x, ip)
      ensures OnlineLease(Acquire(pool, id, now).0, x, ip)
    {
      StaysOnline(pool, AcquireOp(id, now), x);
    }
  }

  lemma AcquireBacks(pool: Pool, id: string, now: int)
    requires LeasePool.Inv(pool) && id != ""
    ensures var (after, result) := Acquire(pool, id, now);
            && LeasePool.Inv(after)
            && (result.Ok? ==> OnlineLease(after, id, result.value.ip) && result.value.ip != "")
            && (forall x, ip :: OnlineLease(pool, x, ip) ==> OnlineLease(after, x, ip))
  {
    hide Text, ScanFrom, At, InPool;
    AcquireSpares(pool, id, now);
    var (after, result) := Acquire(pool, id, now);
    if result.Ok? {
      LeasedText(after, id);
    }
  }

  lemma LeasedText(pool: Pool, id: string)
    requires LeasePool.Inv(pool) && id in pool.leases
    ensures pool.leases[id].ip != ""
  {
    assert InPool(pool, pool.leases[id].ip);
  }

  lemma MarkOfflineSpares(pool: Pool, id: string, now: int)
    requires LeasePool.Inv(pool)
    ensures LeasePool.Inv(MarkOffline(pool, id, now))
    ensures forall x, ip :: x != id && OnlineLease(pool, x, ip) ==> OnlineLease(MarkOffline(pool, id, now), x, ip)
    ensures forall ip :: !OnlineLease(MarkOffline(pool, id, now), id, ip)
  {
    hide Text, LeasePool.Inv;
    LeasePool.ApplyKeeps(pool, MarkOfflineOp(id, now));
  }

  lemma SweepSpares(pool: Pool, now: int)
    requires LeasePool.Inv(pool)
    ensures LeasePool.Inv(Sweep(pool, now))
    ensures forall x, ip :: OnlineLease(pool, x, ip) ==> OnlineLease(Sweep(pool, now), x, ip)
  {
    hide Text, LeasePool.Inv;
    LeasePool.ApplyKeeps(pool, SweepOp(now));
  }

  /* ------------------------------ steps ------------------------------ */

  /** The peer's new state holds no address that the old one does not, under the same identity. */
  predicate Milder(p: Peer, q: Peer) {
    && q.id == p.id && q.vip == p.vip
    && (q.phase.Granted? || q.phase.Offered? ==>
          (p.phase.Granted? || p.phase.Offered?) && q.phase.ip == p.phase.ip)
    && (q.phase.Removed? || q.phase.Gone? <==> p.phase.Removed? || p.phase.Gone?)
  }

  /** A mild change of one peer, with whatever happens to the history and the tunnel. */
  lemma MildChange(s: Server, t: Server, c: nat)
    requires Good(s) && c in s.peers && c in t.peers && Milder(s.peers[c], t.peers[c])
    requires t.pool == s.pool && t.maps == s.maps && t.peers == s.peers[c := t.peers[c]]
    ensures Good(t)
  {
    hide LeasePool.Inv;
    forall d, ip | d in t.peers && Holds(t.peers[d], ip) ensures OnlineLease(t.pool, t.peers[d].id, ip) {
      assert Holds(s.peers[d], ip);
    }
  }

  lemma QueuedKeeps(s: Server, target: nat, route: Route, preferDone: bool)
    requires Good(s) && target in s.peers
    ensures var after := Queued(s, target, route, preferDone);
            after.Some? ==> Good(after.value)
  {
    hide LeasePool.Inv, Good;
    var after := Queued(s, target, route, preferDone);
    if after.Some? && after.value != s {
      MildChange(s, after.value, target);
    }
  }

  /** A peer without a handler's address in hand is granted one that is leased to it, in a pool
      that has lost no online lease. */
  lemma GrantedChange(s: Server, t: Server, c: nat, ip: string)
    requires Good(s) && c in s.peers && s.peers[c].phase.Reading? && s.peers[c].id != ""
    requires LeasePool.Inv(t.pool) && OnlineLease(t.pool, s.peers[c].id, ip)
    requires forall x, a :: OnlineLease(s.pool, x, a) ==> OnlineLease(t.pool, x, a)
    requires t.maps == s.maps && t.peers == s.peers[c := s.peers[c].(phase := Granted(ip))]
    ensures Good(t)
  {
    hide LeasePool.Inv, OnlineLease;
    forall d, a | d in t.peers && Holds(t.peers[d], a) ensures OnlineLease(t.pool, t.peers[d].id, a) {
      if !Holds(s.peers[d], a) {
        assert d == c && a == ip;
      }
    }
  }

  lemma PoolChange(s: Server, pool: Pool)
    requires Good(s) && LeasePool.Inv(pool)
    requires forall x, a :: OnlineLease(s.pool, x, a) ==> OnlineLease(pool, x, a)
    ensures Good(s.(pool := pool))
  {
    hide LeasePool.Inv, OnlineLease, Holds;
  }

  lemma DiscoverKeeps(s: Server, c: nat, now: int)
    requires Good(s) && c in s.peers && s.peers[c].phase.Reading? && Ranged(s.pool)
    ensures Good(DiscoverNext(s, c, s.peers[c], now))
  {
    var p := s.peers[c];
    var t := DiscoverNext(s, c, p, now);
    assert LeasePool.Inv(s.pool);
    hide LeasePool.Inv, Good, OnlineLease, Acquire;
    if p.id == "" {
      MildChange(s, t, c);
    } else {
      AcquireBacks(s.pool, p.id, now);
      var (pool, result) := Acquire(s.pool, p.id, now);
      if result.Ok? {
        GrantedChange(s, t, c, result.value.ip);
      } else {
        PoolChange(s, pool);
      }
    }
  }

  /** A peer about to be bound is given a real address, the one that it has if it has one. */
  lemma OfferedIsOwn(s: Server, c: nat)
    requires Good(s) && c in s.peers && s.peers[c].phase.Offered?
    ensures var p := s.peers[c];
            && p.id != "" && p.phase.ip != "" && (p.vip == "" || p.vip == p.phase.ip)
            && OnlineLease(s.pool, p.id, p.phase.ip)
  {
    var p := s.peers[c];
    assert Holds(p, p.phase.ip);
    LeasedText(s.pool, p.id);
    hide LeasePool.Inv;
    if p.vip != "" {
      assert Holds(p, p.vip);
    }
  }

  /** The peer moves on to an address that it held already, or lets go of what it was doing. */
  lemma MovedKeepsBacked(s: Server, t: Server, c: nat)
    requires Backed(s) && c in s.peers && c in t.peers && t.pool == s.pool && t.peers == s.peers[c := t.peers[c]]
    requires t.peers[c].id == s.peers[c].id
    requires forall ip :: Holds(t.peers[c], ip) ==> Holds(s.peers[c], ip)
    ensures Backed(t)
  {
    hide Holds, OnlineLease;
  }

  lemma BindKeeps(s: Server, c: nat)
    requires Good(s) && c in s.peers && s.peers[c].phase.Offered?
    ensures Good(BindNext(s, c, s.peers[c]))
  {
    OfferedIsOwn(s, c);
    hide LeasePool.Inv;
    var t := BindNext(s, c, s.peers[c]);
    MovedKeepsBacked(s, t, c);
    hide Backed;
    BindTidy(s, c);
  }

  lemma BindTidy(s: Server, c: nat)
    requires Tidy(s) && c in s.peers && s.peers[c].phase.Offered? && s.peers[c].id != ""
    requires s.peers[c].phase.ip != "" && (s.peers[c].vip == "" || s.peers[c].vip == s.peers[c].phase.ip)
    ensures Tidy(BindNext(s, c, s.peers[c]))
  {
  }

  lemma RemoveKeeps(s: Server, c: nat)
    requires Good(s) && c in s.peers && s.peers[c].phase.Closing?
    ensures Good(PeerNext(s, RemovePeer(c), c))
  {
    GoodIsRanged(s);
    hide LeasePool.Inv;
    var p, t := s.peers[c], PeerNext(s, RemovePeer(c), c);
    assert t == SetPeer(s, c, p.(phase := Removed)).(maps := Remove(s.maps, c, p.id, p.vip));
    hide PeerNext;
    assert Tidy(t) by {
      hide Backed, OnlineLease;
      assert forall ip :: ip in s.maps.ips && s.maps.ips[ip] == c ==> p.vip == ip && ip !in t.maps.ips;
    }
    hide Tidy;
    MovedKeepsBacked(s, t, c);
  }

  lemma OfflineKeeps(s: Server, c: nat, now: int)
    requires Good(s) && c in s.peers && s.peers[c].phase.Removed?
    requires CleansUpAlone(s, MarkOfflineStep(c, now))
    ensures Good(PeerNext(s, MarkOfflineStep(c, now), c))
  {
    hide Text, LeasePool.Inv, MarkOffline;
    GoodIsRanged(s);
    var p, t := s.peers[c], PeerNext(s, MarkOfflineStep(c, now), c);
    if p.id != "" {
      MarkOfflineSpares(s.pool, p.id, now);
      forall d, ip | d in t.peers && Holds(t.peers[d], ip) ensures OnlineLease(t.pool, t.peers[d].id, ip) {
        assert d != c && Holds(s.peers[d], ip) && !StillUsed(s, c, d);
      }
    }
  }

  /** The one way to break the backing: marking an identity offline under a connection that is
      still using it. */
  lemma OfflineBreaks(s: Server, c: nat, now: int)
    requires Good(s) && !CleansUpAlone(s, MarkOfflineStep(c, now))
    ensures !Backed(Next(s, MarkOfflineStep(c, now)))
  {
    hide Text, LeasePool.Inv, MarkOffline;
    var d :| StillUsed(s, c, d);
    var p := s.peers[d];
    var ip := if p.phase.Granted? || p.phase.Offered? then p.phase.ip else p.vip;
    MarkOfflineSpares(s.pool, s.peers[c].id, now);
    GoodIsRanged(s);
    var t := Next(s, MarkOfflineStep(c, now));
    assert t.peers[d] == p && Holds(p, ip);
    assert !OnlineLease(t.pool, p.id, ip);
  }

  lemma HandleIPKeeps(s: Server, c: nat, parsed: Option<Packet>, filtered: bool)
    requires Good(s) && c in s.peers && s.peers[c].phase.Reading?
    ensures Good(HandleIPNext(s, c, s.peers[c], parsed, filtered))
  {
    hide LeasePool.Inv, Good, OnlineLease;
    MildChange(s, HandleIPNext(s, c, s.peers[c], parsed, filtered), c);
  }

  lemma SendNextKeeps(s: Server, c: nat, ok: bool)
    requires Good(s) && c in s.peers
    ensures Good(SendNextNext(s, c, s.peers[c])) && Good(SendDoneNext(s, c, s.peers[c], ok))
  {
    hide LeasePool.Inv, Good;
    var t, u := SendNextNext(s, c, s.peers[c]), SendDoneNext(s, c, s.peers[c], ok);
    if t != s {
      MildChange(s, t, c);
    }
    if u != s {
      MildChange(s, u, c);
    }
  }

  lemma QuietPeerStep(s: Server, step: Step, c: nat)
    requires Good(s) && c in s.peers && HandlerOf(step) == Some(c)
    requires step.WriteOffer? || step.StartCleanup? || step.StopSending?
    ensures Good(PeerNext(s, step, c))
  {
    GoodIsRanged(s);
    hide LeasePool.Inv, Good, Ranged, OnlineLease, DiscoverNext, BindNext, Remove, MarkOffline, HandleIPNext, EnqueueNext,
         SendNextNext, AuthenticateNext;
    var t := PeerNext(s, step, c);
    if t != s {
      MildChange(s, t, c);
    }
  }

  lemma EvictKeeps(s: Server, c: nat)
    requires Good(s) && c in s.peers
    ensures Good(PeerNext(s, Evict(c), c))
  {
    GoodIsRanged(s);
    hide LeasePool.Inv, Good;
    var p, t := s.peers[c], PeerNext(s, Evict(c), c);
    if p.phase.Evicting? && p.phase.other in s.peers {
      var back := SetPeer(s, c, p.(phase := Reading));
      MildChange(s, back, c);
      MildChange(back, t, p.phase.other);
    }
  }

  lemma EnqueueKeeps(s: Server, c: nat, preferDone: bool)
    requires Good(s) && c in s.peers && s.peers[c].phase.Routing?
    ensures Good(EnqueueNext(s, c, s.peers[c], preferDone))
  {
    hide LeasePool.Inv, Good, Queued;
    var p := s.peers[c];
    if p.phase.target in s.peers {
      var back := SetPeer(s, c, p.(phase := Reading));
      MildChange(s, back, c);
      var route := Route(FromPeer(c, p.phase.index), p.phase.packet, ToPeer(p.phase.target));
      QueuedKeeps(back, p.phase.target, route, preferDone);
    }
  }

  lemma PeerStepKeeps(s: Server, step: Step, c: nat)
    requires Good(s) && CleansUpAlone(s, step) && c in s.peers && HandlerOf(step) == Some(c)
    ensures Good(PeerNext(s, step, c))
  {
    GoodIsRanged(s);
    hide LeasePool.Inv, Good, DiscoverNext, BindNext, Remove, MarkOffline, Text, HandleIPNext, EnqueueNext,
         SendNextNext, AuthenticateNext;
    var p := s.peers[c];
    match step
    case Discover(_, now) =>
      if p.phase.Reading? { DiscoverKeeps(s, c, now); }
    case Bind(_) =>
      if p.phase.Offered? { BindKeeps(s, c); }
    case RemovePeer(_) =>
      if p.phase.Closing? { RemoveKeeps(s, c); }
    case MarkOfflineStep(_, now) =>
      if p.phase.Removed? { OfflineKeeps(s, c, now); }
    case Authenticate(_, verified) =>
      if p.phase.Reading? { AuthenticateKeeps(s, c, verified); }
    case HandleIP(_, parsed, filtered) =>
      if p.phase.Reading? { HandleIPKeeps(s, c, parsed, filtered); }
    case SendNext(_) => SendNextKeeps(s, c, true);
    case SendDone(_, ok) => SendNextKeeps(s, c, ok);
    case Evict(_) => EvictKeeps(s, c);
    case Enqueue(_, preferDone) =>
      if p.phase.Routing? { EnqueueKeeps(s, c, preferDone); }
    case _ =>
      QuietPeerStep(s, step, c);
  }

  /** Setting an identity touches no held address: a peer without an identity holds none. */
  lemma AuthenticateKeeps(s: Server, c: nat, verified: Option<string>)
    requires Good(s) && c in s.peers && s.peers[c].phase.Reading?
    ensures Good(AuthenticateNext(s, c, s.peers[c], verified))
  {
    var p, t := s.peers[c], AuthenticateNext(s, c, s.peers[c], verified);
    if p.id == "" && verified.Some? && verified.value != "" {
      assert t == SetPeer(s, c, p.(id := verified.value));
      hide AuthenticateNext;
      IdentifiedKeeps(s, c, verified.value);
    } else {
      hide LeasePool.Inv, OnlineLease, Good;
      MildChange(s, t, c);
    }
  }

  lemma IdentifiedKeeps(s: Server, c: nat, id: string)
    requires Good(s) && c in s.peers && s.peers[c].phase.Reading? && s.peers[c].id == "" && id != ""
    ensures Good(SetPeer(s, c, s.peers[c].(id := id)))
  {
    hide LeasePool.Inv, OnlineLease;
    var t := SetPeer(s, c, s.peers[c].(id := id));
    forall d, ip | d in t.peers && Holds(t.peers[d], ip) ensures OnlineLease(t.pool, t.peers[d].id, ip) {
      assert d != c && Holds(s.peers[d], ip);
    }
  }

  lemma NextKeeps(s: Server, step: Step)
    requires Good(s) && CleansUpAlone(s, step)
    ensures Good(Next(s, step))
  {
    GoodIsRanged(s);
    hide LeasePool.Inv, PeerNext, Sweep, Queued;
    match step
    case Connect(c) => ConnectKeeps(s, c);
    case SweepStep(now) => SweepKeeps(s, now);
    case ReadTun(_) =>
    case EnqueueTun(preferDone) =>
      if s.tun.TunRouting? && s.tun.target in s.peers {
        QueuedKeeps(s.(tun := TunIdle), s.tun.target,
                    Route(FromTun(s.tun.index), s.tun.packet, ToPeer(s.tun.target)), preferDone);
      }
    case _ =>
      var c := HandlerOf(step).value;
      if c in s.peers {
        PeerStepKeeps(s, step, c);
      }
  }

  lemma ConnectKeeps(s: Server, c: nat)
    requires Good(s)
    ensures Good(Next(s, Connect(c)))
  {
    hide LeasePool.Inv, Text;
  }

  lemma SweepKeeps(s: Server, now: int)
    requires Good(s)
    ensures Good(Next(s, SweepStep(now)))
  {
    hide LeasePool.Inv, Text, Sweep;
    SweepSpares(s.pool, now);
  }

  /* ------------------------------ runs ------------------------------ */

  lemma {:induction false} AloneKeepsGood(s: Server, steps: seq<Step>)
    requires Good(s) && Ranged(s.pool)
    requires forall k :: 0 <= k < |steps| ==> CleansUpAlone(RunServer(s, steps[..k]), steps[k])
    ensures Good(RunServer(s, steps))
  {
    hide Good, CleansUpAlone, Next;
    if steps != [] {
      var before := steps[..|steps| - 1];
      forall k | 0 <= k < |before| ensures CleansUpAlone(RunServer(s, before[..k]), before[k]) {
        assert before[..k] == steps[..k];
      }
      AloneKeepsGood(s, before);
      NextKeeps(RunServer(s, before), steps[|steps| - 1]);
    }
  }

  /** The main theorem. Over every interleaving of connections, cleanups and sweeps: every address
      that a peer holds is online and leased to its identity in all states of a run, exactly when
      no step of the run marks an identity offline that another connection is still using. */
  lemma BackedExactly(pool: Pool, gateway: bool, steps: seq<Step>)
    requires LeasePool.Inv(pool) && Ranged(pool)
    ensures (forall k :: 0 <= k <= |steps| ==> Backed(RunServer(Start(pool, gateway), steps[..k]))) <==>
            (forall k :: 0 <= k < |steps| ==> CleansUpAlone(RunServer(Start(pool, gateway), steps[..k]), steps[k]))
  {
    hide Text, LeasePool.Inv, CleansUpAlone, Next, Backed;
    var s := Start(pool, gateway);
    assert Good(s) by { StartIsGood(pool, gateway); }
    if forall k :: 0 <= k < |steps| ==> CleansUpAlone(RunServer(s, steps[..k]), steps[k]) {
      forall k | 0 <= k <= |steps| ensures Backed(RunServer(s, steps[..k])) {
        forall j | 0 <= j < k ensures CleansUpAlone(RunServer(s, steps[..k][..j]), steps[..k][j]) {
          assert steps[..k][..j] == steps[..j];
        }
        AloneKeepsGood(s, steps[..k]);
      }
    }
    if forall k :: 0 <= k <= |steps| ==> Backed(RunServer(s, steps[..k])) {
      BackedMeansAlone(s, steps, |steps|);
    }
  }

  lemma StartIsGood(pool: Pool, gateway: bool)
    requires LeasePool.Inv(pool)
    ensures Good(Start(pool, gateway))
  {
    hide LeasePool.Inv;
  }

  lemma {:induction false} BackedMeansAlone(s: Server, steps: seq<Step>, n: nat)
    requires Good(s) && Ranged(s.pool) && n <= |steps|
    requires forall k :: 0 <= k <= |steps| ==> Backed(RunServer(s, steps[..k]))
    ensures Good(RunServer(s, steps[..n]))
    ensures forall k :: 0 <= k < n ==> CleansUpAlone(RunServer(s, steps[..k]), steps[k])
  {
    hide Good, CleansUpAlone, Next, Backed;
    if n > 0 {
      BackedMeansAlone(s, steps, n - 1);
      var x := RunServer(s, steps[..n - 1]);
      RunPrefix(s, steps, n - 1);
      assert Backed(Next(x, steps[n - 1]));
      BackedStepIsAlone(x, steps[n - 1]);
      NextKeeps(x, steps[n - 1]);
    } else {
      assert steps[..0] == [];
    }
  }

  lemma BackedStepIsAlone(s: Server, step: Step)
    requires Good(s) && Ranged(s.pool) && Backed(Next(s, step))
    ensures CleansUpAlone(s, step)
  {
    hide Good, Backed, Next;
    if step.MarkOfflineStep? && !CleansUpAlone(s, step) {
      OfflineBreaks(s, step.c, step.now);
    }
  }

  /* ------------------------------ one live connection per identity ------------------------------ */

  /** An identity has at most one connection from its authentication to the end of the cleanup. */
  ghost predicate Exclusive(s: Server) {
    forall c, d :: c in s.peers && d in s.peers && c != d && s.peers[c].id == s.peers[d].id && s.peers[c].id != "" ==>
      s.peers[c].phase.Gone? || s.peers[d].phase.Gone?
  }

  /** As long as that holds, every binding of the registry is backed by an online lease of the
      bound peer for exactly that address; distinct bindings belong to distinct identities; and
      binding never takes an address away from another peer. */
  lemma ExclusiveIdentities(pool: Pool, gateway: bool, steps: seq<Step>)
    requires LeasePool.Inv(pool) && Ranged(pool)
    requires forall k :: 0 <= k <= |steps| ==> Exclusive(RunServer(Start(pool, gateway), steps[..k]))
    ensures var s := RunServer(Start(pool, gateway), steps);
            && (forall ip :: ip in s.maps.ips ==>
                  && s.maps.ips[ip] in s.peers && s.peers[s.maps.ips[ip]].vip == ip
                  && OnlineLease(s.pool, s.peers[s.maps.ips[ip]].id, ip))
            && (forall a, b :: a in s.maps.ips && b in s.maps.ips && a != b ==>
                  s.peers[s.maps.ips[a]].id != s.peers[s.maps.ips[b]].id)
            && (forall c :: c in s.peers && s.peers[c].phase.Offered? && s.peers[c].phase.ip in s.maps.ips ==>
                  s.maps.ips[s.peers[c].phase.ip] == c)
  {
    hide Text, Next;
    var s := Start(pool, gateway);
    StartIsGood(pool, gateway);
    forall k | 0 <= k < |steps| ensures CleansUpAlone(RunServer(s, steps[..k]), steps[k]) {
      assert Exclusive(RunServer(s, steps[..k]));
    }
    AloneKeepsGood(s, steps);
    assert steps[..|steps|] == steps;
    BoundIsBacked(RunServer(s, steps));
  }

  lemma BoundIsBacked(s: Server)
    requires Good(s) && Exclusive(s)
    ensures forall ip :: ip in s.maps.ips ==>
              && s.maps.ips[ip] in s.peers && s.peers[s.maps.ips[ip]].vip == ip
              && OnlineLease(s.pool, s.peers[s.maps.ips[ip]].id, ip)
    ensures forall a, b :: a in s.maps.ips && b in s.maps.ips && a != b ==>
              s.peers[s.maps.ips[a]].id != s.peers[s.maps.ips[b]].id
    ensures forall c :: c in s.peers && s.peers[c].phase.Offered? && s.peers[c].phase.ip in s.maps.ips ==>
              s.maps.ips[s.peers[c].phase.ip] == c
  {
    hide Text, InPool;
    forall ip | ip in s.maps.ips ensures OnlineLease(s.pool, s.peers[s.maps.ips[ip]].id, ip) {
      assert Holds(s.peers[s.maps.ips[ip]], ip);
    }
    forall c | c in s.peers && s.peers[c].phase.Offered? && s.peers[c].phase.ip in s.maps.ips
      ensures s.maps.ips[s.peers[c].phase.ip] == c
    {
      var ip := s.peers[c].phase.ip;
      assert Holds(s.peers[c], ip);
      assert s.pool.owners[ip] == s.peers[c].id;
    }
  }
}
