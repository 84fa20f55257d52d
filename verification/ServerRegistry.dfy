/** The server's runs as runs of its registry, so that what is exact for the registry is exact for the
    server. */
module ServerRegistry {
  import opened Bytes
  import opened Registry
  import opened ServerSteps
  import LeasePool
  import R = RegistryRuns

  /** What a step of the server does to the registry and the peers' fields, if anything. */
  function OpOf(s: Server, step: Step): seq<R.Op> {
    match step
    case Connect(c) => if c in s.peers then [] else [R.ConnectOp(c)]
    case Authenticate(c, verified) =>
      if c !in s.peers || !s.peers[c].phase.Reading? || verified.None? || verified.value == "" then []
      else [R.IdentifyOp(c, verified.value)]
    case Bind(c) =>
      if c !in s.peers || !s.peers[c].phase.Offered? then [] else [R.BindOp(c, s.peers[c].phase.ip)]
    case RemovePeer(c) =>
      if c !in s.peers || !s.peers[c].phase.Closing? then [] else [R.RemoveOp(c)]
    case _ => []
  }

  function OpsOf(s: Server, steps: seq<Step>): seq<R.Op>
    requires LeasePool.Ranged(s.pool)
  {
    if steps == [] then []
    else
      var before := steps[..|steps| - 1];
      OpsOf(s, before) + OpOf(RunServer(s, before), steps[|steps| - 1])
  }

  predicate IsRemoved(p: Peer) {
    p.phase.Removed? || p.phase.Gone?
  }

  /** The world of the registry's runs is the server's registry and its peers' fields. */
  ghost predicate Projects(s: Server, w: R.World) {
    && w.maps == s.maps && w.peers.Keys == s.peers.Keys && w.removed <= s.peers.Keys
    && (forall c :: c in s.peers ==>
          && w.peers[c] == R.PeerInfo(s.peers[c].id, s.peers[c].vip)
          && (c in w.removed <==> IsRemoved(s.peers[c])))
  }

  function Applied(w: R.World, ops: seq<R.Op>): R.World {
    if ops == [] then w else R.Apply(w, ops[0])
  }

  /** A step that touches one peer, but not its fields, nor the registry. */
  ghost predicate Quiet(s: Server, t: Server) {
    && t.maps == s.maps && t.peers.Keys == s.peers.Keys
    && (forall c :: c in s.peers ==>
          && t.peers[c].id == s.peers[c].id && t.peers[c].vip == s.peers[c].vip
          && (IsRemoved(t.peers[c]) <==> IsRemoved(s.peers[c])))
  }

  lemma QuietProjects(s: Server, t: Server, w: R.World)
    requires Projects(s, w) && Quiet(s, t)
    ensures Projects(t, w)
  {
  }

  lemma OneQuiet(s: Server, t: Server, c: nat)
    requires c in s.peers && c in t.peers && t.peers == s.peers[c := t.peers[c]] && t.maps == s.maps
    requires t.peers[c].id == s.peers[c].id && t.peers[c].vip == s.peers[c].vip
    requires IsRemoved(t.peers[c]) <==> IsRemoved(s.peers[c])
    ensures Quiet(s, t)
  {
  }

  lemma QueuedQuiet(s: Server, target: nat, route: Route, preferDone: bool)
    requires target in s.peers
    ensures match Queued(s, target, route, preferDone) case None => true case Some(t) => Quiet(s, t)
  {
  }

  lemma EnqueueQuiet(s: Server, c: nat, preferDone: bool)
    requires c in s.peers && s.peers[c].phase.Routing?
    ensures Quiet(s, EnqueueNext(s, c, s.peers[c], preferDone))
  {
    hide Queued;
    var p := s.peers[c];
    if p.phase.target in s.peers {
      var back := SetPeer(s, c, p.(phase := Reading));
      OneQuiet(s, back, c);
      QueuedQuiet(back, p.phase.target, Route(FromPeer(c, p.phase.index), p.phase.packet, ToPeer(p.phase.target)), preferDone);
    }
  }

  lemma EvictQuiet(s: Server, c: nat)
    requires LeasePool.Ranged(s.pool) && c in s.peers
    ensures Quiet(s, PeerNext(s, Evict(c), c))
  {
    var p := s.peers[c];
    if p.phase.Evicting? && p.phase.other in s.peers {
      EvictExplicit(s, c);
      hide PeerNext, LeasePool.Ranged;
    } else {
      hide LeasePool.Ranged;
    }
  }

  lemma HandledQuiet(s: Server, c: nat, parsed: Option<Packet>, filtered: bool)
    requires c in s.peers && s.peers[c].phase.Reading?
    ensures Quiet(s, HandleIPNext(s, c, s.peers[c], parsed, filtered))
  {
    OneQuiet(s, HandleIPNext(s, c, s.peers[c], parsed, filtered), c);
    hide Quiet;
  }

  lemma DiscoverQuiet(s: Server, c: nat, now: int)
    requires LeasePool.Ranged(s.pool) && c in s.peers && s.peers[c].phase.Reading?
    ensures Quiet(s, DiscoverNext(s, c, s.peers[c], now))
  {
    hide LeasePool.Ranged, LeasePool.Acquire, Quiet;
    assert s.peers[c := s.peers[c]] == s.peers;
    OneQuiet(s, DiscoverNext(s, c, s.peers[c], now), c);
  }

  lemma SendQuiet(s: Server, c: nat, ok: bool)
    requires c in s.peers
    ensures Quiet(s, SendNextNext(s, c, s.peers[c])) && Quiet(s, SendDoneNext(s, c, s.peers[c], ok))
  {
    hide Quiet;
    assert s.peers[c := s.peers[c]] == s.peers;
    OneQuiet(s, SendNextNext(s, c, s.peers[c]), c);
    OneQuiet(s, SendDoneNext(s, c, s.peers[c], ok), c);
  }

  lemma OtherQuiet(s: Server, step: Step, c: nat)
    requires LeasePool.Ranged(s.pool) && c in s.peers && HandlerOf(step) == Some(c)
    requires !step.Authenticate? && !step.Bind? && !step.RemovePeer?
    ensures Quiet(s, PeerNext(s, step, c))
  {
    hide EnqueueNext, HandleIPNext, DiscoverNext, SendNextNext, SendDoneNext, LeasePool.MarkOffline, LeasePool.Ranged, Quiet;
    var p := s.peers[c];
    assert s.peers[c := p] == s.peers;
    OneQuiet(s, s, c);
    match step
    case Evict(_) => EvictQuiet(s, c);
    case Enqueue(_, preferDone) =>
      if p.phase.Routing? { EnqueueQuiet(s, c, preferDone); }
    case HandleIP(_, parsed, filtered) =>
      if p.phase.Reading? { HandledQuiet(s, c, parsed, filtered); }
    case Discover(_, now) =>
      if p.phase.Reading? { DiscoverQuiet(s, c, now); }
    case SendNext(_) => SendQuiet(s, c, false);
    case SendDone(_, ok) => SendQuiet(s, c, ok);
    case WriteOffer(_, _) => OneQuiet(s, PeerNext(s, step, c), c);
    case StopSending(_) => OneQuiet(s, PeerNext(s, step, c), c);
    case StartCleanup(_) => OneQuiet(s, PeerNext(s, step, c), c);
    case MarkOfflineStep(_, _) => OneQuiet(s, PeerNext(s, step, c), c);
    case _ =>
  }

  lemma AuthenticateProjects(s: Server, c: nat, verified: Option<string>, w: R.World)
    requires Projects(s, w) && LeasePool.Ranged(s.pool) && c in s.peers
    ensures Projects(PeerNext(s, Authenticate(c, verified), c), Applied(w, OpOf(s, Authenticate(c, verified))))
  {
    hide LeasePool.Ranged, PeerNext, Projects, Quiet;
    AuthenticateIs(s, c, verified);
    var p := s.peers[c];
    if p.phase.Reading? && (verified.None? || verified.value == "") {
      OneQuiet(s, SetPeer(s, c, LeavePeer(p)), c);
      QuietProjects(s, SetPeer(s, c, LeavePeer(p)), w);
    } else if p.phase.Reading? {
      IdentifyProjects(s, c, verified.value, w);
    }
  }

  lemma IdentifyProjects(s: Server, c: nat, id: string, w: R.World)
    requires Projects(s, w) && c in s.peers && s.peers[c].phase.Reading? && id != ""
    ensures Projects(AuthenticateNext(s, c, s.peers[c], Some(id)), R.Apply(w, R.IdentifyOp(c, id)))
  {
    var p := s.peers[c];
    if p.id != "" && p.id != id {
      assert R.Apply(w, R.IdentifyOp(c, id)) == w;
      OneQuiet(s, SetPeer(s, c, LeavePeer(p)), c);
      hide Projects, Quiet;
      QuietProjects(s, SetPeer(s, c, LeavePeer(p)), w);
    } else {
      assert R.Apply(w, R.IdentifyOp(c, id)) == w.(peers := w.peers[c := w.peers[c].(id := id)]);
      hide R.Apply;
    }
  }

  lemma AuthenticateIs(s: Server, c: nat, verified: Option<string>)
    requires LeasePool.Ranged(s.pool) && c in s.peers
    ensures PeerNext(s, Authenticate(c, verified), c)
         == if s.peers[c].phase.Reading? then AuthenticateNext(s, c, s.peers[c], verified) else s
  {
    hide LeasePool.Ranged, AuthenticateNext;
  }

  lemma BindProjects(s: Server, c: nat, w: R.World)
    requires Projects(s, w) && LeasePool.Ranged(s.pool) && c in s.peers
    ensures Projects(PeerNext(s, Bind(c), c), Applied(w, OpOf(s, Bind(c))))
  {
    hide LeasePool.Ranged, BindIP;
  }

  lemma RemoveProjects(s: Server, c: nat, w: R.World)
    requires Projects(s, w) && LeasePool.Ranged(s.pool) && c in s.peers
    ensures Projects(PeerNext(s, RemovePeer(c), c), Applied(w, OpOf(s, RemovePeer(c))))
  {
    hide LeasePool.Ranged, Remove;
  }

  lemma ConnectProjects(s: Server, c: nat, w: R.World)
    requires Projects(s, w) && LeasePool.Ranged(s.pool)
    ensures Projects(Next(s, Connect(c)), Applied(w, OpOf(s, Connect(c))))
  {
    hide LeasePool.Ranged, PeerNext;
  }

  lemma NextProjects(s: Server, step: Step, w: R.World)
    requires Projects(s, w) && LeasePool.Ranged(s.pool)
    ensures Projects(Next(s, step), Applied(w, OpOf(s, step)))
  {
    if step.Connect? {
      hide Projects, Next;
      ConnectProjects(s, step.c, w);
    } else if HandlerOf(step).Some? {
      hide Projects, PeerNext, R.Apply;
      var c := HandlerOf(step).value;
      if c in s.peers {
        if step.Authenticate? {
          AuthenticateProjects(s, c, step.verified, w);
        } else if step.Bind? {
          BindProjects(s, c, w);
        } else if step.RemovePeer? {
          RemoveProjects(s, c, w);
        } else {
          OtherQuiet(s, step, c);
          QuietProjects(s, PeerNext(s, step, c), w);
        }
      }
    } else {
      hide Projects, Queued, LeasePool.Sweep, LeasePool.Ranged;
      TunQuiet(s, step);
      QuietProjects(s, Next(s, step), w);
    }
  }

  lemma TunQuiet(s: Server, step: Step)
    requires LeasePool.Ranged(s.pool) && HandlerOf(step).None? && !step.Connect?
    ensures Quiet(s, Next(s, step))
  {
    hide Queued, LeasePool.Sweep, LeasePool.Ranged, PeerNext;
    if step.EnqueueTun? && s.tun.TunRouting? && s.tun.target in s.peers {
      QueuedQuiet(s.(tun := TunIdle), s.tun.target,
                  Route(FromTun(s.tun.index), s.tun.packet, ToPeer(s.tun.target)), step.preferDone);
    }
  }

  lemma AppliedRun(ops: seq<R.Op>, more: seq<R.Op>)
    requires |more| <= 1
    ensures R.Run(ops + more) == Applied(R.Run(ops), more)
  {
    hide R.Apply;
    if more == [] {
      assert ops + more == ops;
    } else {
      assert (ops + more)[..|ops|] == ops;
    }
  }

  /** Every run of the server is a run of the registry. */
  lemma {:induction false} RunProjects(pool: LeasePool.Pool, gateway: bool, steps: seq<Step>)
    requires LeasePool.Ranged(pool)
    ensures Projects(RunServer(Start(pool, gateway), steps), R.Run(OpsOf(Start(pool, gateway), steps)))
  {
    if steps != [] {
      var s := Start(pool, gateway);
      var before, last := steps[..|steps| - 1], steps[|steps| - 1];
      RunProjects(pool, gateway, before);
      hide Projects, Next, OpOf, R.Run, LeasePool.Ranged;
      OneOpAtMost(RunServer(s, before), last);
      NextProjects(RunServer(s, before), last, R.Run(OpsOf(s, before)));
      AppliedRun(OpsOf(s, before), OpOf(RunServer(s, before), last));
    }
  }

  lemma OneOpAtMost(s: Server, step: Step)
    ensures |OpOf(s, step)| <= 1
  {
  }

  /** So after any run of the server, a peer that has been removed is still reachable in the registry
      iff some address last bound to it is not the address that it had in the end. */
  lemma RemovedReachableExactly(pool: LeasePool.Pool, gateway: bool, steps: seq<Step>, c: nat)
    requires LeasePool.Ranged(pool)
    requires var s := RunServer(Start(pool, gateway), steps); c in s.peers && IsRemoved(s.peers[c])
    ensures var s, ops := RunServer(Start(pool, gateway), steps), OpsOf(Start(pool, gateway), steps);
            Reachable(s.maps, c) <==> exists ip :: R.LastBinder(ops, ip) == Some(c) && (ip == "" || ip != s.peers[c].vip)
  {
    RunProjects(pool, gateway, steps);
    var ops := OpsOf(Start(pool, gateway), steps);
    hide R.Run, R.LastBinder, Reachable, RunServer, OpsOf;
    R.ReachableExactly(ops, c);
  }
}
