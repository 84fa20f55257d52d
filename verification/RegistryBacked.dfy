/**
  When every binding of the registry is backed by an online lease of the bound peer, exactly: as long
  as no lease is marked offline while the registry leads to a peer of that identity, and no address
  is bound whose lease has meanwhile gone offline or away.
 */
module RegistryBacked {
  import opened Bytes
  import opened LeasePool
  import opened Registry
  import opened ServerSteps
  import opened LeaseBacked

  /** Each address of the registry leads to a peer with an online lease for exactly that address. */
  ghost predicate BindingsBacked(s: Server) {
    forall ip :: ip in s.maps.ips ==>
      s.maps.ips[ip] in s.peers && OnlineLease(s.pool, s.peers[s.maps.ips[ip]].id, ip)
  }

  /** The registry leads some address to a peer of the identity. */
  ghost predicate InUse(s: Server, id: string) {
    exists ip :: ip in s.maps.ips && s.maps.ips[ip] in s.peers && s.peers[s.maps.ips[ip]].id == id
  }

  /** What a caller can check before the step: an identity about to be marked offline is not in use,
      and an address about to be bound is still leased to the peer and online. */
  ghost predicate Guarded(s: Server, step: Step) {
    && (step.MarkOfflineStep? && step.c in s.peers && s.peers[step.c].phase.Removed? ==>
          !InUse(s, s.peers[step.c].id))
    && (step.Bind? && step.c in s.peers && s.peers[step.c].phase.Offered? ==>
          OnlineLease(s.pool, s.peers[step.c].id, s.peers[step.c].phase.ip))
  }

  /** What all runs keep: the pool is sound, and peers are identified before they are offered
      addresses or bound to them. */
  ghost predicate Identified(s: Server) {
    && LeasePool.Inv(s.pool)
    && (forall ip :: ip in s.maps.ips ==> s.maps.ips[ip] in s.peers && s.peers[s.maps.ips[ip]].id != "")
    && (forall c :: c in s.peers && (s.peers[c].phase.Granted? || s.peers[c].phase.Offered?) ==> s.peers[c].id != "")
  }

  /* ------------------------------ one step ------------------------------ */

  /** Identities that are set stay, new offers go to identified peers, and no binding is added. */
  ghost predicate Gentle(s: Server, t: Server) {
    && (forall c :: c in s.peers ==> c in t.peers && (s.peers[c].id != "" ==> t.peers[c].id == s.peers[c].id))
    && (forall c :: c in t.peers && (t.peers[c].phase.Granted? || t.peers[c].phase.Offered?) ==> t.peers[c].id != "")
    && (forall ip :: ip in t.maps.ips ==> ip in s.maps.ips && t.maps.ips[ip] == s.maps.ips[ip])
  }

  lemma GentleStep(s: Server, t: Server)
    requires Identified(s) && Gentle(s, t) && LeasePool.Inv(t.pool)
    requires forall id, ip :: OnlineLease(s.pool, id, ip) ==> OnlineLease(t.pool, id, ip)
    ensures Identified(t)
    ensures BindingsBacked(s) ==> BindingsBacked(t)
  {
    hide LeasePool.Inv, OnlineLease;
  }

  /** One peer moves on, and keeps its identity once it has one. */
  lemma PeerIsGentle(s: Server, t: Server, c: nat)
    requires Identified(s) && c in s.peers && c in t.peers && t.peers == s.peers[c := t.peers[c]]
    requires s.peers[c].id != "" ==> t.peers[c].id == s.peers[c].id
    requires t.peers[c].phase.Granted? || t.peers[c].phase.Offered? ==> t.peers[c].id != ""
    requires t.maps.ips == s.maps.ips
    ensures Gentle(s, t)
  {
    hide LeasePool.Inv;
  }

  lemma SamePoolStep(s: Server, t: Server, c: nat)
    requires Identified(s) && c in s.peers && c in t.peers && t.peers == s.peers[c := t.peers[c]]
    requires s.peers[c].id != "" ==> t.peers[c].id == s.peers[c].id
    requires t.peers[c].phase.Granted? || t.peers[c].phase.Offered? ==> t.peers[c].id != ""
    requires t.maps.ips == s.maps.ips
    requires t.pool == s.pool
    ensures Identified(t) && (BindingsBacked(s) ==> BindingsBacked(t))
  {
    PeerIsGentle(s, t, c);
    assert LeasePool.Inv(t.pool);
    hide Identified, Gentle;
    GentleStep(s, t);
  }

  lemma PoolChange(s: Server, pool: Pool)
    requires Identified(s) && LeasePool.Inv(pool)
    requires forall id, ip :: OnlineLease(s.pool, id, ip) ==> OnlineLease(pool, id, ip)
    ensures var t := s.(pool := pool);
            Identified(t) && (BindingsBacked(s) ==> BindingsBacked(t))
  {
    hide LeasePool.Inv, OnlineLease;
  }

  lemma QueuedStep(s: Server, target: nat, route: Route, preferDone: bool)
    requires Identified(s) && target in s.peers
    ensures match Queued(s, target, route, preferDone)
            case None => true
            case Some(t) => Identified(t) && (BindingsBacked(s) ==> BindingsBacked(t))
  {
    var after := Queued(s, target, route, preferDone);
    assert s.peers[target].phase.Granted? || s.peers[target].phase.Offered? ==> s.peers[target].id != "";
    hide Identified, BindingsBacked;
    if after.Some? && after.value != s {
      SamePoolStep(s, after.value, target);
    }
  }

  lemma EnqueueStep(s: Server, c: nat, preferDone: bool)
    requires Identified(s) && c in s.peers && s.peers[c].phase.Routing?
    ensures var t := EnqueueNext(s, c, s.peers[c], preferDone);
            Identified(t) && (BindingsBacked(s) ==> BindingsBacked(t))
  {
    hide Identified, BindingsBacked, Queued;
    var p := s.peers[c];
    if p.phase.target in s.peers {
      var back := SetPeer(s, c, p.(phase := Reading));
      SamePoolStep(s, back, c);
      QueuedStep(back, p.phase.target, Route(FromPeer(c, p.phase.index), p.phase.packet, ToPeer(p.phase.target)), preferDone);
    }
  }

  lemma EvictStep(s: Server, c: nat)
    requires Identified(s) && Ranged(s.pool) && c in s.peers
    ensures var t := PeerNext(s, Evict(c), c);
            Identified(t) && (BindingsBacked(s) ==> BindingsBacked(t))
  {
    hide LeasePool.Inv, BindingsBacked;
    var p := s.peers[c];
    if p.phase.Evicting? && p.phase.other in s.peers {
      var back := SetPeer(s, c, p.(phase := Reading));
      SamePoolStep(s, back, c);
      SamePoolStep(back, SetPeer(back, p.phase.other, ClosePeer(back.peers[p.phase.other])), p.phase.other);
    }
  }

  lemma DiscoverStep(s: Server, c: nat, now: int)
    requires Identified(s) && Ranged(s.pool) && c in s.peers && s.peers[c].phase.Reading?
    ensures var t := DiscoverNext(s, c, s.peers[c], now);
            Identified(t) && (BindingsBacked(s) ==> BindingsBacked(t))
  {
    var p, t := s.peers[c], DiscoverNext(s, c, s.peers[c], now);
    assert LeasePool.Inv(s.pool);
    AcquireSpares(s.pool, p.id, now);
    hide LeasePool.Inv, Acquire, OnlineLease, Identified, BindingsBacked;
    if p.id == "" {
      SamePoolStep(s, t, c);
    } else {
      var (pool, result) := Acquire(s.pool, p.id, now);
      PoolChange(s, pool);
      if result.Ok? {
        SamePoolStep(s.(pool := pool), t, c);
      }
    }
  }

  /** Binding keeps the backing exactly if the address's lease is still there and online. */
  lemma BindStep(s: Server, c: nat)
    requires Identified(s) && BindingsBacked(s) && c in s.peers && s.peers[c].phase.Offered?
    ensures var t := BindNext(s, c, s.peers[c]);
            BindingsBacked(t) <==> OnlineLease(s.pool, s.peers[c].id, s.peers[c].phase.ip)
  {
    hide LeasePool.Inv, OnlineLease;
    var t := BindNext(s, c, s.peers[c]);
    var ip := s.peers[c].phase.ip;
    assert t.maps.ips == s.maps.ips[ip := c] && t.pool == s.pool;
    assert forall d :: d in s.peers ==> t.peers[d].id == s.peers[d].id;
    assert ip in t.maps.ips && t.maps.ips[ip] == c;
  }

  lemma BindIdentified(s: Server, c: nat)
    requires Identified(s) && c in s.peers && s.peers[c].phase.Offered?
    ensures Identified(BindNext(s, c, s.peers[c]))
  {
    hide LeasePool.Inv;
  }

  /** Taking all online leases of an identity away keeps the backing exactly if the registry does not
      lead to it. */
  lemma LosingIdentity(s: Server, pool: Pool, id: string)
    requires Identified(s) && LeasePool.Inv(pool)
    requires forall x, ip :: x != id && OnlineLease(s.pool, x, ip) ==> OnlineLease(pool, x, ip)
    requires forall ip :: !OnlineLease(pool, id, ip)
    ensures var t := s.(pool := pool);
            Identified(t) && (BindingsBacked(s) ==> (BindingsBacked(t) <==> !InUse(s, id)))
  {
    hide LeasePool.Inv, OnlineLease;
  }

  lemma SameUse(s: Server, t: Server, c: nat, id: string)
    requires Identified(s) && c in s.peers && c in t.peers && t.peers == s.peers[c := t.peers[c]]
    requires t.peers[c].id == s.peers[c].id && t.maps == s.maps
    ensures InUse(s, id) <==> InUse(t, id)
    ensures !InUse(s, "")
  {
    hide LeasePool.Inv;
  }

  lemma OfflineStep(s: Server, c: nat, now: int)
    requires Identified(s) && Ranged(s.pool) && c in s.peers && s.peers[c].phase.Removed?
    ensures var t := PeerNext(s, MarkOfflineStep(c, now), c);
            Identified(t) && (BindingsBacked(s) ==> (BindingsBacked(t) <==> !InUse(s, s.peers[c].id)))
  {
    var p := s.peers[c];
    var gone := SetPeer(s, c, p.(phase := Gone));
    assert LeasePool.Inv(s.pool);
    MarkOfflineSpares(s.pool, p.id, now);
    SameUse(s, gone, c, p.id);
    hide Identified, BindingsBacked, InUse, MarkOffline;
    SamePoolStep(s, gone, c);
    if p.id != "" {
      LosingIdentity(gone, MarkOffline(s.pool, p.id, now), p.id);
    }
  }

  lemma RemoveStep(s: Server, c: nat)
    requires Identified(s) && Ranged(s.pool) && c in s.peers && s.peers[c].phase.Closing?
    ensures var t := PeerNext(s, RemovePeer(c), c);
            Identified(t) && (BindingsBacked(s) ==> BindingsBacked(t))
  {
    hide LeasePool.Inv, OnlineLease, Ranged;
    var p := s.peers[c];
    var t := SetPeer(s, c, p.(phase := Removed)).(maps := Remove(s.maps, c, p.id, p.vip));
    assert PeerNext(s, RemovePeer(c), c) == t;
    hide PeerNext;
    assert forall ip :: ip in t.maps.ips ==> ip in s.maps.ips && t.maps.ips[ip] == s.maps.ips[ip];
    hide Remove, DropOwn;
    GentleStep(s, t);
  }

  lemma AuthenticateStep(s: Server, c: nat, verified: Option<string>)
    requires Identified(s) && c in s.peers && s.peers[c].phase.Reading?
    ensures var t := AuthenticateNext(s, c, s.peers[c], verified);
            Identified(t) && (BindingsBacked(s) ==> BindingsBacked(t))
  {
    var t := AuthenticateNext(s, c, s.peers[c], verified);
    hide Identified, BindingsBacked;
    if t != s {
      SamePoolStep(s, t, c);
    }
  }

  lemma HandleIPStep(s: Server, c: nat, parsed: Option<Packet>, filtered: bool)
    requires Identified(s) && c in s.peers && s.peers[c].phase.Reading?
    ensures var t := HandleIPNext(s, c, s.peers[c], parsed, filtered);
            Identified(t) && (BindingsBacked(s) ==> BindingsBacked(t))
  {
    var t := HandleIPNext(s, c, s.peers[c], parsed, filtered);
    hide Identified, BindingsBacked;
    if t != s {
      SamePoolStep(s, t, c);
    }
  }

  lemma SendNextStep(s: Server, c: nat)
    requires Identified(s) && c in s.peers
    ensures var t := SendNextNext(s, c, s.peers[c]);
            Identified(t) && (BindingsBacked(s) ==> BindingsBacked(t))
  {
    var t := SendNextNext(s, c, s.peers[c]);
    assert s.peers[c].phase.Granted? || s.peers[c].phase.Offered? ==> s.peers[c].id != "";
    hide Identified, BindingsBacked;
    if t != s {
      SamePoolStep(s, t, c);
    }
  }

  lemma SendDoneStep(s: Server, c: nat, ok: bool)
    requires Identified(s) && c in s.peers
    ensures var t := SendDoneNext(s, c, s.peers[c], ok);
            Identified(t) && (BindingsBacked(s) ==> BindingsBacked(t))
  {
    var t := SendDoneNext(s, c, s.peers[c], ok);
    assert s.peers[c].phase.Granted? || s.peers[c].phase.Offered? ==> s.peers[c].id != "";
    hide Identified, BindingsBacked;
    if t != s {
      SamePoolStep(s, t, c);
    }
  }

  lemma PlainStep(s: Server, step: Step, c: nat)
    requires Identified(s) && Ranged(s.pool) && c in s.peers && HandlerOf(step) == Some(c)
    requires step.WriteOffer? || step.StopSending? || step.StartCleanup?
    ensures var t := PeerNext(s, step, c);
            Identified(t) && (BindingsBacked(s) ==> BindingsBacked(t))
  {
    assert s.peers[c].phase.Granted? || s.peers[c].phase.Offered? ==> s.peers[c].id != "";
    hide Identified, BindingsBacked, DiscoverNext, BindNext, HandleIPNext, EnqueueNext, SendNextNext, AuthenticateNext,
         Remove, MarkOffline;
    var t := PeerNext(s, step, c);
    if t != s {
      SamePoolStep(s, t, c);
    }
  }

  lemma PeerStepExactly(s: Server, step: Step, c: nat)
    requires Identified(s) && Ranged(s.pool) && c in s.peers && HandlerOf(step) == Some(c)
    ensures var t := PeerNext(s, step, c);
            Identified(t) && (BindingsBacked(s) ==> (BindingsBacked(t) <==> Guarded(s, step)))
  {
    hide Identified, BindingsBacked, OnlineLease, InUse, DiscoverNext, BindNext, HandleIPNext, EnqueueNext, SendNextNext,
         AuthenticateNext, Remove, MarkOffline;
    var p := s.peers[c];
    match step
    case Discover(_, now) =>
      if p.phase.Reading? { DiscoverStep(s, c, now); }
    case Bind(_) =>
      if p.phase.Offered? {
        BindIdentified(s, c);
        if BindingsBacked(s) { BindStep(s, c); }
      }
    case MarkOfflineStep(_, now) =>
      if p.phase.Removed? { OfflineStep(s, c, now); }
    case Enqueue(_, preferDone) =>
      if p.phase.Routing? { EnqueueStep(s, c, preferDone); }
    case Evict(_) => EvictStep(s, c);
    case RemovePeer(_) =>
      if p.phase.Closing? { RemoveStep(s, c); }
    case Authenticate(_, verified) =>
      if p.phase.Reading? { AuthenticateStep(s, c, verified); }
    case HandleIP(_, parsed, filtered) =>
      if p.phase.Reading? { HandleIPStep(s, c, parsed, filtered); }
    case SendNext(_) => SendNextStep(s, c);
    case SendDone(_, ok) => SendDoneStep(s, c, ok);
    case _ => PlainStep(s, step, c);
  }

  lemma SweepKeeps(s: Server, now: int)
    requires Identified(s)
    ensures var t := s.(pool := Sweep(s.pool, now));
            Identified(t) && (BindingsBacked(s) ==> BindingsBacked(t))
  {
    assert LeasePool.Inv(s.pool);
    SweepSpares(s.pool, now);
    hide Identified, BindingsBacked, Sweep;
    PoolChange(s, Sweep(s.pool, now));
  }

  lemma ConnectKeeps(s: Server, c: nat)
    requires Identified(s) && c !in s.peers
    ensures var t := SetPeer(s, c, NewPeer()).(maps := AddConn(s.maps, c));
            Identified(t) && (BindingsBacked(s) ==> BindingsBacked(t))
  {
    var t := SetPeer(s, c, NewPeer()).(maps := AddConn(s.maps, c));
    assert LeasePool.Inv(t.pool);
    hide LeasePool.Inv, OnlineLease;
    GentleStep(s, t);
  }

  lemma TunChanges(s: Server, t: Server)
    requires Identified(s) && t == s.(tun := t.tun, fromTun := t.fromTun)
    ensures Identified(t) && (BindingsBacked(s) ==> BindingsBacked(t))
  {
    hide LeasePool.Inv, OnlineLease;
  }

  lemma TunStep(s: Server, step: Step)
    requires Identified(s) && Ranged(s.pool) && (step.ReadTun? || step.EnqueueTun?)
    ensures var t := Next(s, step);
            Identified(t) && (BindingsBacked(s) ==> BindingsBacked(t))
  {
    hide Identified, BindingsBacked, Queued, PeerNext;
    if step.ReadTun? {
      TunChanges(s, Next(s, step));
    } else {
      var idle := s.(tun := TunIdle);
      TunChanges(s, idle);
      if s.tun.TunRouting? && s.tun.target in s.peers {
        QueuedStep(idle, s.tun.target, Route(FromTun(s.tun.index), s.tun.packet, ToPeer(s.tun.target)), step.preferDone);
      }
    }
  }

  /** A step from a state whose bindings are all backed leads to such a state exactly if it is
      guarded. */
  lemma StepExactly(s: Server, step: Step)
    requires Identified(s) && Ranged(s.pool)
    ensures Identified(Next(s, step))
    ensures BindingsBacked(s) ==> (BindingsBacked(Next(s, step)) <==> Guarded(s, step))
  {
    match step
    case Connect(c) =>
      hide Identified, BindingsBacked;
      if c !in s.peers { ConnectKeeps(s, c); }
    case SweepStep(now) =>
      hide Identified, BindingsBacked, Sweep;
      SweepKeeps(s, now);
    case ReadTun(_) => hide Next, Identified, BindingsBacked; TunStep(s, step);
    case EnqueueTun(_) => hide Next, Identified, BindingsBacked; TunStep(s, step);
    case _ =>
      hide Identified, BindingsBacked, OnlineLease, InUse, PeerNext;
      var c := HandlerOf(step).value;
      if c in s.peers { PeerStepExactly(s, step, c); }
  }

  /* ------------------------------ runs ------------------------------ */

  lemma StartIsBacked(pool: Pool, gateway: bool)
    requires LeasePool.Inv(pool)
    ensures Identified(Start(pool, gateway)) && BindingsBacked(Start(pool, gateway))
  {
    hide LeasePool.Inv;
  }

  lemma {:induction false} RunIdentified(s: Server, steps: seq<Step>, k: nat)
    requires Identified(s) && Ranged(s.pool) && k <= |steps|
    ensures Identified(RunServer(s, steps[..k]))
  {
    hide Identified, Next;
    if k > 0 {
      RunIdentified(s, steps, k - 1);
      RunPrefix(s, steps, k - 1);
      StepExactly(RunServer(s, steps[..k - 1]), steps[k - 1]);
    } else {
      assert steps[..0] == [];
    }
  }

  lemma {:induction false} GuardedKeepsBacked(s: Server, steps: seq<Step>, k: nat)
    requires Identified(s) && Ranged(s.pool) && BindingsBacked(s) && k <= |steps|
    requires forall j :: 0 <= j < |steps| ==> Guarded(RunServer(s, steps[..j]), steps[j])
    ensures BindingsBacked(RunServer(s, steps[..k]))
  {
    hide Identified, BindingsBacked, Guarded, Next;
    if k > 0 {
      GuardedKeepsBacked(s, steps, k - 1);
      RunIdentified(s, steps, k - 1);
      RunPrefix(s, steps, k - 1);
      StepExactly(RunServer(s, steps[..k - 1]), steps[k - 1]);
    } else {
      assert steps[..0] == [];
    }
  }

  /** The main theorem. Over every interleaving of connections, cleanups and sweeps: every address in
      the registry leads to a peer with an online lease for exactly that address, in all states of a
      run, exactly when every step of the run is guarded: no identity is marked offline while the
      registry leads to it, and no address is bound whose lease is offline or gone. */
  lemma BindingsBackedExactly(pool: Pool, gateway: bool, steps: seq<Step>)
    requires LeasePool.Inv(pool) && Ranged(pool)
    ensures (forall k :: 0 <= k <= |steps| ==> BindingsBacked(RunServer(Start(pool, gateway), steps[..k]))) <==>
            (forall k :: 0 <= k < |steps| ==> Guarded(RunServer(Start(pool, gateway), steps[..k]), steps[k]))
  {
    hide LeasePool.Inv, Ranged, Identified, BindingsBacked, Guarded, Next, RunServer;
    var s := Start(pool, gateway);
    StartIsBacked(pool, gateway);
    if forall k :: 0 <= k < |steps| ==> Guarded(RunServer(s, steps[..k]), steps[k]) {
      forall k | 0 <= k <= |steps| ensures BindingsBacked(RunServer(s, steps[..k])) {
        GuardedKeepsBacked(s, steps, k);
      }
    }
    if forall k :: 0 <= k <= |steps| ==> BindingsBacked(RunServer(s, steps[..k])) {
      forall k | 0 <= k < |steps| ensures Guarded(RunServer(s, steps[..k]), steps[k]) {
        RunIdentified(s, steps, k);
        RunPrefix(s, steps, k);
        assert BindingsBacked(RunServer(s, steps[..k + 1]));
        StepExactly(RunServer(s, steps[..k]), steps[k]);
      }
    }
  }
}
