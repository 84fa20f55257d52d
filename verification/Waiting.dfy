/**
  When a handler can wait for ever. Passing a packet on waits while the target's queue is full and the
  target not closed; if the target's send loop has ended, only the target's own handler can close it,
  or an eviction. Handlers that wait for each other in this way, or for themselves, never clean up.
 */
module Waiting {
  import opened Bytes
  import opened Registry
  import opened ServerSteps
  import LeasePool

  /** A queue that nobody takes from and that is not given up. */
  predicate Jammed(p: Peer) {
    |p.queue| >= SEND_QUEUE_SIZE && !p.done && p.loop.Stopped?
  }

  /** The handler of each of these connections waits for room in the jammed queue of one of them. */
  predicate WaitsIn(s: Server, c: nat, stuck: set<nat>) {
    && c in s.peers && s.peers[c].phase.Routing?
    && s.peers[c].phase.target in stuck && s.peers[c].phase.target in s.peers && Jammed(s.peers[s.peers[c].phase.target])
  }

  ghost predicate Stuck(s: Server, stuck: set<nat>) {
    forall c :: c in stuck ==> WaitsIn(s, c, stuck)
  }

  predicate Evicts(s: Server, step: Step, stuck: set<nat>) {
    step.Evict? && step.c in s.peers && s.peers[step.c].phase.Evicting? && s.peers[step.c].phase.other in stuck
  }

  /* ------------------------------ stuck for good ------------------------------ */

  /** A waiting handler stays where it is and its jammed queue jammed. */
  predicate Holds(p: Peer, q: Peer) {
    q.phase == p.phase && (Jammed(p) ==> Jammed(q))
  }

  lemma OwnStepHolds(s: Server, step: Step, c: nat)
    requires LeasePool.Ranged(s.pool) && c in s.peers && HandlerOf(step) == Some(c) && s.peers[c].phase.Routing?
    requires s.peers[c].phase.target in s.peers && Jammed(s.peers[s.peers[c].phase.target])
    ensures var t := PeerNext(s, step, c);
            forall d :: d in s.peers ==> d in t.peers && (d == c ==> Holds(s.peers[d], t.peers[d]))
                                         && (d != c ==> t.peers[d] == s.peers[d])
  {
    hide LeasePool.Ranged;
  }

  lemma QueuedHolds(s: Server, target: nat, route: Route, preferDone: bool)
    requires target in s.peers
    ensures match Queued(s, target, route, preferDone)
            case None => true
            case Some(t) => forall d :: d in s.peers ==> d in t.peers && Holds(s.peers[d], t.peers[d])
  {
  }

  lemma EnqueueHolds(s: Server, c: nat, preferDone: bool, d: nat)
    requires c in s.peers && s.peers[c].phase.Routing? && d in s.peers && d != c
    ensures var t := EnqueueNext(s, c, s.peers[c], preferDone);
            d in t.peers && Holds(s.peers[d], t.peers[d])
  {
    hide Queued;
    var p := s.peers[c];
    if p.phase.target in s.peers {
      var back := SetPeer(s, c, p.(phase := Reading));
      QueuedHolds(back, p.phase.target, Route(FromPeer(c, p.phase.index), p.phase.packet, ToPeer(p.phase.target)), preferDone);
    }
  }

  /** Another handler's step leaves the waiting one as it is, unless it evicts it. */
  lemma OtherStepHolds(s: Server, step: Step, c: nat, d: nat)
    requires LeasePool.Ranged(s.pool) && c in s.peers && HandlerOf(step) == Some(c) && d in s.peers && d != c
    requires !Evicts(s, step, {d})
    ensures var t := PeerNext(s, step, c);
            d in t.peers && Holds(s.peers[d], t.peers[d])
  {
    hide LeasePool.Ranged, EnqueueNext, LeasePool.Acquire, LeasePool.MarkOffline;
    if step.Enqueue? && s.peers[c].phase.Routing? {
      EnqueueHolds(s, c, step.preferDone, d);
    }
  }

  lemma TunStepHolds(s: Server, step: Step, d: nat)
    requires LeasePool.Ranged(s.pool) && HandlerOf(step).None? && d in s.peers
    ensures d in Next(s, step).peers && Holds(s.peers[d], Next(s, step).peers[d])
  {
    hide LeasePool.Ranged, PeerNext, LeasePool.Sweep, Queued;
    if step.EnqueueTun? && s.tun.TunRouting? && s.tun.target in s.peers {
      QueuedHolds(s.(tun := TunIdle), s.tun.target,
                  Route(FromTun(s.tun.index), s.tun.packet, ToPeer(s.tun.target)), step.preferDone);
    }
  }

  lemma HandlerStepIs(s: Server, step: Step, c: nat)
    requires LeasePool.Ranged(s.pool) && HandlerOf(step) == Some(c)
    ensures Next(s, step) == if c in s.peers then PeerNext(s, step, c) else s
  {
    hide LeasePool.Ranged, PeerNext;
  }

  lemma MemberHolds(s: Server, step: Step, stuck: set<nat>, d: nat)
    requires LeasePool.Ranged(s.pool) && Stuck(s, stuck) && d in stuck && !Evicts(s, step, stuck)
    ensures d in Next(s, step).peers && Holds(s.peers[d], Next(s, step).peers[d])
  {
    hide LeasePool.Ranged, PeerNext, Next, Jammed, Stuck;
    MemberWaits(s, stuck, d);
    if HandlerOf(step).None? {
      TunStepHolds(s, step, d);
    } else {
      var c := HandlerOf(step).value;
      HandlerStepIs(s, step, c);
      if c == d {
        OwnStepHolds(s, step, c);
      } else if c in s.peers {
        OtherStepHolds(s, step, c, d);
      }
    }
  }

  lemma MemberWaits(s: Server, stuck: set<nat>, d: nat)
    requires Stuck(s, stuck) && d in stuck
    ensures WaitsIn(s, d, stuck)
  {
  }

  /** Connections that wait for each other keep waiting under every step but an eviction of one of
      them. */
  lemma StuckStays(s: Server, step: Step, stuck: set<nat>)
    requires LeasePool.Ranged(s.pool) && Stuck(s, stuck) && !Evicts(s, step, stuck)
    ensures Stuck(Next(s, step), stuck)
  {
    hide Next, Jammed;
    forall c | c in stuck ensures WaitsIn(Next(s, step), c, stuck) {
      assert WaitsIn(s, c, stuck);
      MemberHolds(s, step, stuck, c);
      MemberHolds(s, step, stuck, s.peers[c].phase.target);
    }
  }

  /** So no run without such an eviction ever cleans one of them up. */
  lemma {:induction false} StuckForever(s: Server, steps: seq<Step>, stuck: set<nat>)
    requires LeasePool.Ranged(s.pool) && Stuck(s, stuck)
    requires forall k :: 0 <= k < |steps| ==> !Evicts(RunServer(s, steps[..k]), steps[k], stuck)
    ensures Stuck(RunServer(s, steps), stuck)
    ensures forall c :: c in stuck ==> c in RunServer(s, steps).peers && RunServer(s, steps).peers[c].phase.Routing?
  {
    hide Evicts, Stuck, Next, LeasePool.Ranged, WaitsIn;
    if steps != [] {
      var n := |steps| - 1;
      forall k | 0 <= k < n ensures !Evicts(RunServer(s, steps[..n][..k]), steps[..n][k], stuck) {
        assert steps[..n][..k] == steps[..k];
      }
      StuckForever(s, steps[..n], stuck);
      StuckStays(RunServer(s, steps[..n]), steps[n], stuck);
    }
    hide RunServer;
    forall c | c in stuck
      ensures c in RunServer(s, steps).peers && RunServer(s, steps).peers[c].phase.Routing?
    {
      MemberRoutes(RunServer(s, steps), stuck, c);
    }
  }

  lemma MemberRoutes(s: Server, stuck: set<nat>, c: nat)
    requires Stuck(s, stuck) && c in stuck
    ensures c in s.peers && s.peers[c].phase.Routing?
  {
    assert WaitsIn(s, c, stuck);
  }

  /* ------------------------------ otherwise not ------------------------------ */

  /** Whatever leads to a peer leads to one that exists. */
  ghost predicate Wired(s: Server) {
    && (forall ip :: ip in s.maps.ips ==> s.maps.ips[ip] in s.peers)
    && (forall c :: c in s.peers && s.peers[c].phase.Routing? ==> s.peers[c].phase.target in s.peers)
    && (forall c :: c in s.peers && s.peers[c].phase.Evicting? ==> s.peers[c].phase.other in s.peers)
    && (forall c :: c in s.peers ==> Sound(s.peers[c]))
  }

  /** A peer being cleaned up is closed, and no queue is fuller than full. */
  predicate Sound(p: Peer) {
    && (p.phase.Closing? || p.phase.Removed? || p.phase.Gone? ==> p.done)
    && |p.queue| <= SEND_QUEUE_SIZE
  }

  lemma WiredWhen(s: Server, t: Server, c: nat)
    requires Wired(s) && c in s.peers && c in t.peers && t.peers == s.peers[c := t.peers[c]]
    requires forall ip :: ip in t.maps.ips ==> t.maps.ips[ip] in s.peers
    requires t.peers[c].phase.Routing? ==> t.peers[c].phase.target in s.peers
    requires t.peers[c].phase.Evicting? ==> t.peers[c].phase.other in s.peers
    requires Sound(t.peers[c])
    ensures Wired(t)
  {
  }

  lemma QueuedWired(s: Server, target: nat, route: Route, preferDone: bool)
    requires Wired(s) && target in s.peers
    ensures match Queued(s, target, route, preferDone) case None => true case Some(t) => Wired(t)
  {
    var after := Queued(s, target, route, preferDone);
    if after.Some? && after.value != s {
      WiredWhen(s, after.value, target);
    }
  }

  lemma EnqueueWired(s: Server, c: nat, preferDone: bool)
    requires Wired(s) && c in s.peers && s.peers[c].phase.Routing?
    ensures Wired(EnqueueNext(s, c, s.peers[c], preferDone))
  {
    var p := s.peers[c];
    var back := SetPeer(s, c, p.(phase := Reading));
    WiredWhen(s, back, c);
    hide Wired, Queued;
    if p.phase.target in s.peers {
      QueuedWired(back, p.phase.target, Route(FromPeer(c, p.phase.index), p.phase.packet, ToPeer(p.phase.target)), preferDone);
    }
  }

  lemma EvictWired(s: Server, c: nat)
    requires Wired(s) && LeasePool.Ranged(s.pool) && c in s.peers
    ensures Wired(PeerNext(s, Evict(c), c))
  {
    hide LeasePool.Ranged;
    var p := s.peers[c];
    if p.phase.Evicting? {
      var back := SetPeer(s, c, p.(phase := Reading));
      WiredWhen(s, back, c);
      WiredWhen(back, SetPeer(back, p.phase.other, ClosePeer(back.peers[p.phase.other])), p.phase.other);
    }
  }

  lemma HandleIPShape(s: Server, c: nat, parsed: Option<Packet>, filtered: bool)
    requires c in s.peers && s.peers[c].phase.Reading?
    ensures var p, t := s.peers[c], HandleIPNext(s, c, s.peers[c], parsed, filtered);
            && c in t.peers && t.peers == s.peers[c := t.peers[c]] && t.maps == s.maps
            && t.peers[c].queue == p.queue
            && (var phase := t.peers[c].phase;
                || phase.Leaving? || phase.Reading?
                || (phase.Routing? && parsed.Some? && parsed.value.dst in s.maps.ips && phase.target == s.maps.ips[parsed.value.dst]))
  {
  }

  lemma HandleIPWired(s: Server, c: nat, parsed: Option<Packet>, filtered: bool)
    requires Wired(s) && c in s.peers && s.peers[c].phase.Reading?
    ensures Wired(HandleIPNext(s, c, s.peers[c], parsed, filtered))
  {
    hide HandleIPNext;
    HandleIPShape(s, c, parsed, filtered);
    WiredWhen(s, HandleIPNext(s, c, s.peers[c], parsed, filtered), c);
  }

  lemma BindWired(s: Server, c: nat)
    requires Wired(s) && c in s.peers && s.peers[c].phase.Offered?
    ensures Wired(BindNext(s, c, s.peers[c]))
  {
    WiredWhen(s, BindNext(s, c, s.peers[c]), c);
  }

  lemma DiscoverWired(s: Server, c: nat, now: int)
    requires Wired(s) && LeasePool.Ranged(s.pool) && c in s.peers && s.peers[c].phase.Reading?
    ensures Wired(DiscoverNext(s, c, s.peers[c], now))
  {
    hide LeasePool.Acquire, LeasePool.Ranged;
    var t := DiscoverNext(s, c, s.peers[c], now);
    assert s.peers[c := s.peers[c]] == s.peers;
    assert c in t.peers && t.peers == s.peers[c := t.peers[c]] && t.maps == s.maps;
    assert Sound(t.peers[c]) && !t.peers[c].phase.Routing? && !t.peers[c].phase.Evicting?;
    hide DiscoverNext;
    WiredWhen(s, t, c);
  }

  lemma RemoveWired(s: Server, c: nat)
    requires Wired(s) && LeasePool.Ranged(s.pool) && c in s.peers && s.peers[c].phase.Closing?
    ensures Wired(PeerNext(s, RemovePeer(c), c))
  {
    hide LeasePool.Ranged;
    var p := s.peers[c];
    WiredWhen(s, SetPeer(s, c, p.(phase := Removed)).(maps := Remove(s.maps, c, p.id, p.vip)), c);
  }

  lemma AuthenticateWired(s: Server, c: nat, verified: Option<string>)
    requires Wired(s) && c in s.peers && s.peers[c].phase.Reading?
    ensures Wired(AuthenticateNext(s, c, s.peers[c], verified))
  {
    WiredWhen(s, AuthenticateNext(s, c, s.peers[c], verified), c);
  }

  lemma SendNextWired(s: Server, c: nat)
    requires Wired(s) && c in s.peers
    ensures Wired(SendNextNext(s, c, s.peers[c]))
  {
    var t := SendNextNext(s, c, s.peers[c]);
    if t != s {
      assert t.maps == s.maps && t.peers == s.peers[c := t.peers[c]] && t.peers[c].phase == s.peers[c].phase;
      assert Sound(s.peers[c]);
      hide SendNextNext;
      WiredWhen(s, t, c);
    }
  }

  lemma SendDoneWired(s: Server, c: nat, ok: bool)
    requires Wired(s) && c in s.peers
    ensures Wired(SendDoneNext(s, c, s.peers[c], ok))
  {
    var t := SendDoneNext(s, c, s.peers[c], ok);
    if t != s {
      assert t.maps == s.maps && t.peers == s.peers[c := t.peers[c]] && t.peers[c].phase == s.peers[c].phase;
      assert t.peers[c].queue == s.peers[c].queue && t.peers[c].done == s.peers[c].done;
      hide SendDoneNext;
      WiredWhen(s, t, c);
    }
  }

  lemma PlainWired(s: Server, step: Step, c: nat)
    requires Wired(s) && LeasePool.Ranged(s.pool) && c in s.peers && HandlerOf(step) == Some(c)
    requires step.WriteOffer? || step.StopSending? || step.StartCleanup? || step.MarkOfflineStep?
    ensures Wired(PeerNext(s, step, c))
  {
    hide LeasePool.Ranged, LeasePool.MarkOffline, AuthenticateNext, DiscoverNext, BindNext, HandleIPNext, EnqueueNext,
         SendNextNext, SendDoneNext, Remove;
    var t := PeerNext(s, step, c);
    assert t == s || t.peers == s.peers[c := t.peers[c]];
    if t != s {
      WiredWhen(s, t, c);
    }
  }

  lemma PeerStepWired(s: Server, step: Step, c: nat)
    requires Wired(s) && LeasePool.Ranged(s.pool) && c in s.peers && HandlerOf(step) == Some(c)
    ensures Wired(PeerNext(s, step, c))
  {
    hide Wired, EnqueueNext, HandleIPNext, BindNext, DiscoverNext, SendNextNext, SendDoneNext, AuthenticateNext, Remove,
         LeasePool.MarkOffline;
    var phase := s.peers[c].phase;
    match step
    case Evict(_) => EvictWired(s, c);
    case Enqueue(_, preferDone) =>
      if phase.Routing? { EnqueueWired(s, c, preferDone); }
    case HandleIP(_, parsed, filtered) =>
      if phase.Reading? { HandleIPWired(s, c, parsed, filtered); }
    case Bind(_) =>
      if phase.Offered? { BindWired(s, c); }
    case Discover(_, now) =>
      if phase.Reading? { DiscoverWired(s, c, now); }
    case RemovePeer(_) =>
      if phase.Closing? { RemoveWired(s, c); }
    case Authenticate(_, verified) =>
      if phase.Reading? { AuthenticateWired(s, c, verified); }
    case SendNext(_) => SendNextWired(s, c);
    case SendDone(_, ok) => SendDoneWired(s, c, ok);
    case _ => PlainWired(s, step, c);
  }

  lemma NextWired(s: Server, step: Step)
    requires Wired(s) && LeasePool.Ranged(s.pool)
    ensures Wired(Next(s, step))
  {
    hide LeasePool.Ranged, PeerNext, LeasePool.Sweep, Queued;
    if HandlerOf(step).Some? {
      var c := HandlerOf(step).value;
      if c in s.peers { PeerStepWired(s, step, c); }
    } else if step.EnqueueTun? && s.tun.TunRouting? && s.tun.target in s.peers {
      QueuedWired(s.(tun := TunIdle), s.tun.target,
                  Route(FromTun(s.tun.index), s.tun.packet, ToPeer(s.tun.target)), step.preferDone);
    }
  }

  lemma {:induction false} RunWired(s: Server, steps: seq<Step>)
    requires Wired(s) && LeasePool.Ranged(s.pool)
    ensures Wired(RunServer(s, steps))
  {
    hide Wired, Next;
    if steps != [] {
      RunWired(s, steps[..|steps| - 1]);
      NextWired(RunServer(s, steps[..|steps| - 1]), steps[|steps| - 1]);
    }
  }

  /** How far a handler that does not wait is from the end of its cleanup. */
  function Rank(phase: Phase): nat {
    match phase
    case Gone => 0
    case Removed => 1
    case Closing => 2
    case Leaving => 3
    case Reading => 3
    case Evicting(_) => 4
    case Offered(_) => 5
    case Granted(_) => 6
    case Routing(_, _, _) => 7
  }

  /** What takes it there. */
  function Onward(c: nat, phase: Phase): Step
    requires !phase.Gone? && !phase.Routing?
  {
    match phase
    case Removed => MarkOfflineStep(c, 0)
    case Closing => RemovePeer(c)
    case Leaving => StartCleanup(c)
    case Reading => StartCleanup(c)
    case Evicting(_) => Evict(c)
    case Offered(_) => Bind(c)
    case Granted(_) => WriteOffer(c, false)
  }

  /** The same phases, but for one connection. */
  ghost predicate SamePhases(s: Server, t: Server, c: nat) {
    forall d :: d in s.peers ==> d in t.peers && (d != c ==> t.peers[d].phase == s.peers[d].phase)
  }

  lemma BindOnward(s: Server, c: nat)
    requires c in s.peers && s.peers[c].phase.Offered?
    ensures var t := BindNext(s, c, s.peers[c]);
            SamePhases(s, t, c) && (t.peers[c].phase.Reading? || t.peers[c].phase.Evicting?)
  {
    hide BindIP;
  }

  lemma EvictOnward(s: Server, c: nat)
    requires LeasePool.Ranged(s.pool) && c in s.peers && s.peers[c].phase.Evicting? && s.peers[c].phase.other in s.peers
    ensures var t := PeerNext(s, Evict(c), c);
            SamePhases(s, t, c) && t.peers[c].phase.Reading?
  {
    hide LeasePool.Ranged, PeerNext;
    EvictExplicit(s, c);
  }

  lemma GrantedOnward(s: Server, c: nat)
    requires LeasePool.Ranged(s.pool) && c in s.peers && s.peers[c].phase.Granted?
    ensures Next(s, WriteOffer(c, false)) == SetPeer(s, c, LeavePeer(s.peers[c]))
  {
    hide LeasePool.Ranged;
  }

  lemma CleanupOnward(s: Server, c: nat)
    requires LeasePool.Ranged(s.pool) && c in s.peers
    ensures var p := s.peers[c];
            && (p.phase.Reading? || p.phase.Leaving? ==>
                  Next(s, StartCleanup(c)) == SetPeer(s, c, ClosePeer(p).(phase := Closing)))
            && (p.phase.Closing? ==>
                  Next(s, RemovePeer(c)) == SetPeer(s, c, p.(phase := Removed)).(maps := Remove(s.maps, c, p.id, p.vip)))
            && (p.phase.Removed? ==> Next(s, MarkOfflineStep(c, 0)).peers == s.peers[c := p.(phase := Gone)])
  {
    hide LeasePool.Ranged, LeasePool.MarkOffline, Remove;
  }

  lemma BoundOnward(s: Server, c: nat)
    requires LeasePool.Ranged(s.pool) && c in s.peers
    ensures s.peers[c].phase.Offered? ==> Next(s, Bind(c)) == BindNext(s, c, s.peers[c])
    ensures s.peers[c].phase.Evicting? ==> Next(s, Evict(c)) == PeerNext(s, Evict(c), c)
  {
    hide LeasePool.Ranged, BindNext;
  }

  lemma OtherExists(s: Server, c: nat)
    requires Wired(s) && c in s.peers
    ensures s.peers[c].phase.Evicting? ==> s.peers[c].phase.other in s.peers
  {
  }

  lemma OnwardStep(s: Server, c: nat)
    requires Wired(s) && LeasePool.Ranged(s.pool) && c in s.peers && 0 < Rank(s.peers[c].phase) < 7
    ensures var t := Next(s, Onward(c, s.peers[c].phase));
            Wired(t) && SamePhases(s, t, c) && Rank(t.peers[c].phase) < Rank(s.peers[c].phase)
  {
    hide Next, PeerNext, Wired, LeasePool.Ranged, BindNext;
    var phase := s.peers[c].phase;
    OtherExists(s, c);
    NextWired(s, Onward(c, phase));
    BoundOnward(s, c);
    if phase.Offered? {
      BindOnward(s, c);
    } else if phase.Evicting? {
      EvictOnward(s, c);
    } else if phase.Granted? {
      GrantedOnward(s, c);
    } else {
      CleanupOnward(s, c);
    }
  }

  lemma {:induction false} Unwinds(s: Server, c: nat) returns (steps: seq<Step>)
    requires Wired(s) && LeasePool.Ranged(s.pool) && c in s.peers && !s.peers[c].phase.Routing?
    ensures var t := RunServer(s, steps);
            Wired(t) && SamePhases(s, t, c) && t.peers[c].phase.Gone?
    decreases Rank(s.peers[c].phase), 1
  {
    if s.peers[c].phase.Gone? {
      steps := [];
    } else {
      steps := GoesOneOn(s, c);
    }
  }

  lemma {:induction false} GoesOneOn(s: Server, c: nat) returns (steps: seq<Step>)
    requires Wired(s) && LeasePool.Ranged(s.pool) && c in s.peers && 0 < Rank(s.peers[c].phase) < 7
    ensures var t := RunServer(s, steps);
            Wired(t) && SamePhases(s, t, c) && t.peers[c].phase.Gone?
    decreases Rank(s.peers[c].phase), 0
  {
    hide Wired, Next, RunServer, Onward, LeasePool.Ranged, SamePhases;
    var step := Onward(c, s.peers[c].phase);
    OnwardStep(s, c);
    var t := Next(s, step);
    StillThere(s, t, c);
    var rest := Unwinds(t, c);
    steps := [step] + rest;
    OneThenRest(s, step, rest);
    SameThen(s, t, RunServer(t, rest), c);
  }

  lemma StillThere(s: Server, t: Server, c: nat)
    requires SamePhases(s, t, c) && c in s.peers
    ensures c in t.peers
  {
  }

  lemma SameThen(s: Server, t: Server, u: Server, c: nat)
    requires SamePhases(s, t, c) && SamePhases(t, u, c)
    ensures SamePhases(s, u, c)
  {
  }

  lemma OneThenRest(s: Server, step: Step, rest: seq<Step>)
    requires LeasePool.Ranged(s.pool)
    ensures RunServer(s, [step]) == Next(s, step)
    ensures RunServer(s, [step] + rest) == RunServer(Next(s, step), rest)
  {
    RunAppend(s, [step], rest);
    assert [step][..0] == [];
    assert RunServer(s, [step]) == Next(RunServer(s, []), step);
  }

  /** A waiting handler goes on once its target is closed, or its queue has room or is still being
      sent from. */
  lemma GoesOn(s: Server, c: nat) returns (steps: seq<Step>)
    requires Wired(s) && LeasePool.Ranged(s.pool) && c in s.peers && s.peers[c].phase.Routing?
    requires s.peers[c].phase.target in s.peers && !Jammed(s.peers[s.peers[c].phase.target])
    ensures var t := RunServer(s, steps);
            Wired(t) && SamePhases(s, t, c) && t.peers[c].phase.Reading?
  {
    var target := s.peers[c].phase.target;
    var p := s.peers[target];
    hide RunServer, Next, Wired;
    if p.done || |p.queue| < SEND_QUEUE_SIZE {
      EnqueueGoesOn(s, c);
      steps := [Enqueue(c, true)];
      OneThenRest(s, Enqueue(c, true), []);
    } else if p.loop.Waiting? {
      steps := TakesAndGoesOn(s, c, target);
    } else {
      SendMakesRoom(s, target, true);
      var s1 := Next(s, SendDone(target, true));
      var rest := TakesAndGoesOn(s1, c, target);
      steps := [SendDone(target, true)] + rest;
      OneThenRest(s, SendDone(target, true), rest);
    }
  }

  lemma TakesAndGoesOn(s: Server, c: nat, target: nat) returns (steps: seq<Step>)
    requires Wired(s) && LeasePool.Ranged(s.pool) && c in s.peers && s.peers[c].phase.Routing?
    requires target == s.peers[c].phase.target && target in s.peers
    requires s.peers[target].queue != [] && s.peers[target].loop.Waiting?
    ensures var t := RunServer(s, steps);
            Wired(t) && SamePhases(s, t, c) && t.peers[c].phase.Reading?
  {
    SendMakesRoom(s, target, false);
    assert Sound(s.peers[target]);
    hide RunServer, Next, Wired;
    var s1 := Next(s, SendNext(target));
    EnqueueGoesOn(s1, c);
    steps := [SendNext(target)] + [Enqueue(c, true)];
    OneThenRest(s, SendNext(target), [Enqueue(c, true)]);
    OneThenRest(s1, Enqueue(c, true), []);
  }

  lemma SendOnward(s: Server, d: nat)
    requires LeasePool.Ranged(s.pool) && d in s.peers
    ensures Next(s, SendNext(d)) == SendNextNext(s, d, s.peers[d])
    ensures Next(s, SendDone(d, true)) == SendDoneNext(s, d, s.peers[d], true)
    ensures s.peers[d].phase.Routing? ==> Next(s, Enqueue(d, true)) == EnqueueNext(s, d, s.peers[d], true)
  {
    hide LeasePool.Ranged, SendNextNext, SendDoneNext, EnqueueNext;
  }

  lemma SendMakesRoom(s: Server, d: nat, writing: bool)
    requires Wired(s) && LeasePool.Ranged(s.pool) && d in s.peers && s.peers[d].queue != []
    requires if writing then s.peers[d].loop.Writing? else s.peers[d].loop.Waiting?
    ensures var t := Next(s, if writing then SendDone(d, true) else SendNext(d));
            && Wired(t) && t.peers.Keys == s.peers.Keys && (forall x :: x in s.peers ==> t.peers[x].phase == s.peers[x].phase)
            && (if writing then t.peers[d].loop.Waiting? && t.peers[d].queue == s.peers[d].queue
                else |t.peers[d].queue| == |s.peers[d].queue| - 1)
  {
    NextWired(s, if writing then SendDone(d, true) else SendNext(d));
    hide Next, Wired, LeasePool.Ranged;
    SendOnward(s, d);
  }

  lemma QueuedPhases(s: Server, target: nat, route: Route)
    requires target in s.peers && (s.peers[target].done || |s.peers[target].queue| < SEND_QUEUE_SIZE)
    ensures var after := Queued(s, target, route, true);
            after.Some? && forall x :: x in s.peers ==> x in after.value.peers && after.value.peers[x].phase == s.peers[x].phase
  {
  }

  lemma EnqueueTakes(s: Server, c: nat)
    requires c in s.peers && s.peers[c].phase.Routing? && s.peers[c].phase.target in s.peers
    requires var p := s.peers[s.peers[c].phase.target]; p.done || |p.queue| < SEND_QUEUE_SIZE
    ensures var t := EnqueueNext(s, c, s.peers[c], true);
            SamePhases(s, t, c) && t.peers[c].phase.Reading?
  {
    var p := s.peers[c];
    var back := SetPeer(s, c, p.(phase := Reading));
    assert back.peers[p.phase.target].queue == s.peers[p.phase.target].queue;
    QueuedPhases(back, p.phase.target, Route(FromPeer(c, p.phase.index), p.phase.packet, ToPeer(p.phase.target)));
    hide Queued;
  }

  lemma EnqueueGoesOn(s: Server, c: nat)
    requires Wired(s) && LeasePool.Ranged(s.pool) && c in s.peers && s.peers[c].phase.Routing?
    requires s.peers[c].phase.target in s.peers
    requires var p := s.peers[s.peers[c].phase.target]; p.done || |p.queue| < SEND_QUEUE_SIZE
    ensures var t := Next(s, Enqueue(c, true));
            Wired(t) && SamePhases(s, t, c) && t.peers[c].phase.Reading?
  {
    hide Next, Wired, LeasePool.Ranged, EnqueueNext;
    NextWired(s, Enqueue(c, true));
    SendOnward(s, c);
    EnqueueTakes(s, c);
  }

  /** Follows the handlers that a connection's handler waits for, one waiting for the next: either
      they come round to one already met, and then they are stuck; or the last one does not wait for
      good, and then all of them can be cleaned up. met are the ones met so far. */
  lemma {:induction false} Unblocks(s: Server, c: nat, met: set<nat>) returns (steps: seq<Step>, stuck: set<nat>)
    requires Wired(s) && LeasePool.Ranged(s.pool) && c in s.peers && c !in met && met <= s.peers.Keys
    requires forall d :: d in met ==> WaitsIn(s, d, met + {c})
    ensures (Stuck(s, stuck) && met + {c} <= stuck)
            || (stuck == {} && Wired(RunServer(s, steps)) && c in RunServer(s, steps).peers
                && RunServer(s, steps).peers[c].phase.Gone?
                && forall d :: d in met ==> d in RunServer(s, steps).peers && RunServer(s, steps).peers[d].phase == s.peers[d].phase)
    decreases |s.peers.Keys - met|
  {
    steps, stuck := [], {};
    var phase := s.peers[c].phase;
    if !phase.Routing? {
      hide Wired, RunServer;
      steps := Unwinds(s, c);
    } else if !Jammed(s.peers[phase.target]) {
      steps := FreesItself(s, c);
    } else if phase.target in met + {c} {
      stuck := met + {c};
    } else {
      var rest, more := s.peers.Keys - met - {c}, met + {c};
      assert s.peers.Keys - more == rest && c in s.peers.Keys - met;
      assert |rest| < |s.peers.Keys - met| by { assert s.peers.Keys - met == rest + {c}; }
      forall d | d in more ensures WaitsIn(s, d, more + {phase.target}) {
        if d != c { assert WaitsIn(s, d, met + {c}); }
      }
      steps, stuck := Unblocks(s, phase.target, more);
      if stuck == {} {
        var t := RunServer(s, steps);
        assert t.peers[c].phase == phase && Sound(t.peers[phase.target]);
        hide Wired, RunServer;
        var last := FreesItself(t, c);
        RunAppend(s, steps, last);
        steps := steps + last;
      }
    }
  }

  /** A waiting handler whose target's queue is not jammed gets to the end. */
  lemma FreesItself(s: Server, c: nat) returns (steps: seq<Step>)
    requires Wired(s) && LeasePool.Ranged(s.pool) && c in s.peers && s.peers[c].phase.Routing?
    requires s.peers[c].phase.target in s.peers && !Jammed(s.peers[s.peers[c].phase.target])
    ensures var t := RunServer(s, steps);
            Wired(t) && SamePhases(s, t, c) && t.peers[c].phase.Gone?
  {
    hide Wired, RunServer, Jammed;
    var first := GoesOn(s, c);
    var t := RunServer(s, first);
    var second := Unwinds(t, c);
    RunAppend(s, first, second);
    steps := first + second;
  }

  /** The other half: a connection that no such set contains can always be cleaned up. */
  lemma OthersCanLeave(s: Server, c: nat) returns (steps: seq<Step>)
    requires Wired(s) && LeasePool.Ranged(s.pool) && c in s.peers
    requires forall stuck: set<nat> :: Stuck(s, stuck) ==> c !in stuck
    ensures c in RunServer(s, steps).peers && RunServer(s, steps).peers[c].phase.Gone?
  {
    hide Wired, RunServer, Stuck;
    var stuck: set<nat>;
    steps, stuck := Unblocks(s, c, {});
  }

  /** A server's runs all start wired. */
  lemma StartIsWired(pool: LeasePool.Pool, gateway: bool)
    ensures Wired(Start(pool, gateway))
  {
  }
}
