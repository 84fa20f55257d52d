/**
  The client and the whole server together: one client's connections among all the server's, with
  the real lease pool, registry, evictions, cleanups and sweeps behind the handlers.
 */
module Joint {
  import opened Bytes
  import opened ClientSession
  import LeasePool
  import S = Sessions
  import V = ServerSteps

  datatype Whole = Whole(sys: S.Sys, server: V.Server)

  /** template holds the parts of an answer that the address protocol leaves to the configuration;
      delivered tells whether the bytes of a failing write reach the client. */
  datatype Step =
    | ClientSide(own: S.Step)
    | ServerSide(step: V.Step, template: Message, delivered: bool)

  predicate HasNext(link: S.Link) {
    link.upRead < |link.up|
  }

  /** A handler's step on one of the client's connections is about the client's next message. */
  predicate About(x: Whole, step: V.Step) {
    match step
    case Authenticate(c, verified) =>
      c in x.sys.links ==>
        var link := x.sys.links[c];
        HasNext(link) && link.up[link.upRead].AuthMsg? && (verified.Some? ==> verified.value == link.up[link.upRead].id)
    case Discover(c, _) =>
      c in x.sys.links ==> HasNext(x.sys.links[c]) && x.sys.links[c].up[x.sys.links[c].upRead].DiscoverMsg?
    case HandleIP(c, parsed, _) =>
      c in x.sys.links ==>
        var link := x.sys.links[c];
        HasNext(link) && link.up[link.upRead].IPMsg? && (parsed.Some? ==> parsed.value.bytes == link.up[link.upRead].packet)
    case _ => true
  }

  /** What the server's step is on the client's side of its connection, if anything. */
  function Image(server: V.Server, step: V.Step, template: Message, delivered: bool): Option<S.Step>
    requires LeasePool.Ranged(server.pool)
  {
    match step
    case Authenticate(c, verified) => Some(S.ServeAuth(c, verified.Some?))
    case Discover(c, now) =>
      if c !in server.peers then None
      else
        var (_, result) := LeasePool.Acquire(server.pool, server.peers[c].id, now);
        Some(S.ServeDiscover(c, if result.Ok? then Some(result.value.ip) else None, template))
    case WriteOffer(c, ok) => Some(S.WriteOffer(c, template, delivered, ok))
    case Bind(c) => Some(S.BindAddress(c))
    case HandleIP(c, _, _) => Some(S.ServeIP(c))
    case _ => None
  }

  predicate HandlesMessage(step: V.Step) {
    step.Authenticate? || step.Discover? || step.HandleIP?
  }

  function ServerNext(x: Whole, step: V.Step, template: Message, delivered: bool): Whole
    requires LeasePool.Ranged(x.server.pool)
  {
    var idle := HandlesMessage(step) && (step.c !in x.server.peers || !x.server.peers[step.c].phase.Reading?);
    if idle || !About(x, step) then x
    else
      var image := Image(x.server, step, template, delivered);
      Whole(if image.Some? && S.LinkOf(image.value).value in x.sys.links then S.Next(x.sys, image.value) else x.sys,
            V.Next(x.server, step))
  }

  /** The client's new connection is one of the server's as well. */
  function ClientNext(x: Whole, step: S.Step): Whole
    requires LeasePool.Ranged(x.server.pool)
  {
    if S.LinkOf(step).Some? || (step.Connect? && (!x.sys.loop.Idle? || step.k in x.server.peers)) then x
    else Whole(S.Next(x.sys, step), if step.Connect? then V.Next(x.server, V.Connect(step.k)) else x.server)
  }

  function Next(x: Whole, step: Step): (r: Whole)
    requires LeasePool.Ranged(x.server.pool)
    ensures LeasePool.Ranged(r.server.pool)
  {
    match step
    case ClientSide(s) => ClientNext(x, s)
    case ServerSide(s, template, delivered) => ServerNext(x, s, template, delivered)
  }

  function Run(pool: LeasePool.Pool, gateway: bool, steps: seq<Step>): (r: Whole)
    requires LeasePool.Ranged(pool)
    ensures LeasePool.Ranged(r.server.pool)
  {
    if steps == [] then Whole(S.Init(), V.Start(pool, gateway))
    else Next(Run(pool, gateway, steps[..|steps| - 1]), steps[|steps| - 1])
  }

  /* ------------------------------ the two sides agree ------------------------------ */

  /** The client's view of a connection's handler is where the handler really stands. */
  predicate Tracks(link: S.Link, peer: V.Peer) {
    && link.id == peer.id && link.vip == peer.vip
    && match peer.phase
       case Reading => link.serving && link.handler.Reading?
       case Evicting(_) => link.serving && link.handler.Reading?
       case Routing(_, _, _) => link.serving && link.handler.Reading?
       case Granted(ip) => link.serving && link.handler.Granted? && link.handler.ip == ip
       case Offered(ip) => link.serving && link.handler == S.Offered(ip)
       case _ => link.handler.Reading?
  }

  ghost predicate Agree(x: Whole) {
    forall k :: k in x.sys.links ==> k in x.server.peers && Tracks(x.sys.links[k], x.server.peers[k])
  }

  /** As far as the client can tell, the peer has not moved, or has begun to leave. */
  predicate Unmoved(p: V.Peer, q: V.Peer) {
    && q.id == p.id && q.vip == p.vip
    && (|| q.phase == p.phase
        || (q.phase.Reading? && (p.phase.Evicting? || p.phase.Routing?))
        || (q.phase.Closing? && (p.phase.Reading? || p.phase.Leaving?))
        || (q.phase.Removed? && p.phase.Closing?)
        || (q.phase.Gone? && p.phase.Removed?))
  }

  lemma UnmovedAgrees(x: Whole, server: V.Server)
    requires Agree(x)
    requires AllUnmoved(x.server, server)
    ensures Agree(Whole(x.sys, server))
  {
  }

  /** One connection moves on both sides. */
  lemma MovedAgrees(x: Whole, y: Whole, c: nat)
    requires Agree(x) && c in y.sys.links && c in y.server.peers && Tracks(y.sys.links[c], y.server.peers[c])
    requires y.sys.links == x.sys.links[c := y.sys.links[c]]
    requires y.server.peers == x.server.peers[c := y.server.peers[c]]
    ensures Agree(y)
  {
    hide Tracks;
  }

  /** A handler's step on a connection of the client's is its image on the client's side. */
  lemma AuthenticateTracks(x: Whole, c: nat, verified: Option<string>)
    requires Agree(x) && c in x.sys.links && x.server.peers[c].phase.Reading? && About(x, V.Authenticate(c, verified))
    ensures var sys := S.Next(x.sys, S.ServeAuth(c, verified.Some?));
            var server := V.AuthenticateNext(x.server, c, x.server.peers[c], verified);
            && sys.links.Keys == x.sys.links.Keys && sys.links == x.sys.links[c := sys.links[c]]
            && c in server.peers && server.peers == x.server.peers[c := server.peers[c]]
            && Tracks(sys.links[c], server.peers[c])
  {
    assert Tracks(x.sys.links[c], x.server.peers[c]);
    hide Agree;
  }

  lemma DiscoverTracks(x: Whole, c: nat, now: int, template: Message)
    requires Agree(x) && LeasePool.Ranged(x.server.pool)
    requires c in x.sys.links && x.server.peers[c].phase.Reading? && About(x, V.Discover(c, now))
    ensures var sys := S.Next(x.sys, Image(x.server, V.Discover(c, now), template, false).value);
            var server := V.DiscoverNext(x.server, c, x.server.peers[c], now);
            && sys.links.Keys == x.sys.links.Keys && sys.links == x.sys.links[c := sys.links[c]]
            && c in server.peers && server.peers == x.server.peers[c := server.peers[c]]
            && Tracks(sys.links[c], server.peers[c])
  {
    hide LeasePool.Acquire, LeasePool.Ranged;
    assert x.server.peers[c := x.server.peers[c]] == x.server.peers;
  }

  lemma HandleIPOutcome(server: V.Server, c: nat, parsed: Option<V.Packet>, filtered: bool)
    requires c in server.peers && server.peers[c].phase.Reading?
    ensures var p, t := server.peers[c], V.HandleIPNext(server, c, server.peers[c], parsed, filtered);
            && c in t.peers && t.peers == server.peers[c := t.peers[c]]
            && t.peers[c].id == p.id && t.peers[c].vip == p.vip
            && if p.id == "" then t.peers[c].phase.Leaving? else t.peers[c].phase.Reading? || t.peers[c].phase.Routing?
  {
  }

  lemma HandleIPTracks(x: Whole, c: nat, parsed: Option<V.Packet>, filtered: bool)
    requires Agree(x) && c in x.sys.links && x.server.peers[c].phase.Reading? && About(x, V.HandleIP(c, parsed, filtered))
    ensures var sys := S.Next(x.sys, S.ServeIP(c));
            var server := V.HandleIPNext(x.server, c, x.server.peers[c], parsed, filtered);
            && sys.links.Keys == x.sys.links.Keys && sys.links == x.sys.links[c := sys.links[c]]
            && c in server.peers && server.peers == x.server.peers[c := server.peers[c]]
            && Tracks(sys.links[c], server.peers[c])
  {
    assert Tracks(x.sys.links[c], x.server.peers[c]);
    HandleIPOutcome(x.server, c, parsed, filtered);
    hide V.HandleIPNext, Agree;
  }

  lemma OfferTracks(x: Whole, c: nat, template: Message, delivered: bool, ok: bool)
    requires Agree(x) && LeasePool.Ranged(x.server.pool) && c in x.sys.links && x.server.peers[c].phase.Granted?
    ensures var sys := S.Next(x.sys, S.WriteOffer(c, template, delivered, ok));
            var server := V.PeerNext(x.server, V.WriteOffer(c, ok), c);
            && sys.links.Keys == x.sys.links.Keys && sys.links == x.sys.links[c := sys.links[c]]
            && c in server.peers && server.peers == x.server.peers[c := server.peers[c]]
            && Tracks(sys.links[c], server.peers[c])
  {
    hide LeasePool.Ranged;
  }

  lemma BindTracks(x: Whole, c: nat)
    requires Agree(x) && c in x.sys.links && x.server.peers[c].phase.Offered?
    ensures var sys := S.Next(x.sys, S.BindAddress(c));
            var server := V.BindNext(x.server, c, x.server.peers[c]);
            && sys.links.Keys == x.sys.links.Keys && sys.links == x.sys.links[c := sys.links[c]]
            && c in server.peers && server.peers == x.server.peers[c := server.peers[c]]
            && Tracks(sys.links[c], server.peers[c])
  {
  }

  /** As far as the client can tell, no peer has moved. */
  ghost predicate AllUnmoved(server: V.Server, t: V.Server) {
    forall c :: c in server.peers ==> c in t.peers && Unmoved(server.peers[c], t.peers[c])
  }

  lemma OneUnmoved(server: V.Server, t: V.Server, c: nat)
    requires c in server.peers && c in t.peers && t.peers == server.peers[c := t.peers[c]]
    requires Unmoved(server.peers[c], t.peers[c])
    ensures AllUnmoved(server, t)
  {
  }

  lemma QueuedUnmoved(server: V.Server, target: nat, route: V.Route, preferDone: bool)
    requires target in server.peers
    ensures match V.Queued(server, target, route, preferDone)
            case None => true
            case Some(t) =>
              && AllUnmoved(server, t)
              && forall c :: c in server.peers ==> c in t.peers && t.peers[c].phase == server.peers[c].phase
  {
  }

  lemma EnqueueUnmoved(server: V.Server, c: nat, preferDone: bool)
    requires c in server.peers && server.peers[c].phase.Routing?
    ensures AllUnmoved(server, V.EnqueueNext(server, c, server.peers[c], preferDone))
  {
    hide V.Queued;
    var p := server.peers[c];
    if p.phase.target in server.peers {
      var back := V.SetPeer(server, c, p.(phase := V.Reading));
      OneUnmoved(server, back, c);
      QueuedUnmoved(back, p.phase.target, V.Route(V.FromPeer(c, p.phase.index), p.phase.packet, V.ToPeer(p.phase.target)), preferDone);
    }
  }

  lemma EvictUnmoved(server: V.Server, c: nat)
    requires LeasePool.Ranged(server.pool) && c in server.peers
    ensures AllUnmoved(server, V.PeerNext(server, V.Evict(c), c))
  {
    hide LeasePool.Ranged;
  }

  lemma PeerStepUnmoved(server: V.Server, step: V.Step, c: nat)
    requires LeasePool.Ranged(server.pool) && V.HandlerOf(step) == Some(c) && c in server.peers
    requires !HandlesMessage(step) && !step.WriteOffer? && !step.Bind?
    ensures AllUnmoved(server, V.PeerNext(server, step, c))
  {
    hide LeasePool.MarkOffline, LeasePool.Ranged, AllUnmoved, V.EnqueueNext;
    assert server.peers[c := server.peers[c]] == server.peers;
    if step.Evict? {
      EvictUnmoved(server, c);
    } else if !step.Enqueue? {
      OneUnmoved(server, V.PeerNext(server, step, c), c);
    } else if server.peers[c].phase.Routing? {
      EnqueueUnmoved(server, c, step.preferDone);
    } else {
      OneUnmoved(server, server, c);
    }
  }

  /** The handlers' other steps, and those of the send loops, the gateway pump and the sweeper, are
      none of the client's business. */
  lemma OtherStepsUnmoved(server: V.Server, step: V.Step)
    requires LeasePool.Ranged(server.pool) && !HandlesMessage(step) && !step.WriteOffer? && !step.Bind?
    ensures AllUnmoved(server, V.Next(server, step))
  {
    hide LeasePool.Sweep, LeasePool.Ranged, V.PeerNext, V.Queued;
    if V.HandlerOf(step).Some? {
      var c := V.HandlerOf(step).value;
      if c in server.peers { PeerStepUnmoved(server, step, c); }
    } else if step.EnqueueTun? && server.tun.TunRouting? && server.tun.target in server.peers {
      QueuedUnmoved(server.(tun := V.TunIdle), server.tun.target,
                    V.Route(V.FromTun(server.tun.index), server.tun.packet, V.ToPeer(server.tun.target)), step.preferDone);
    }
  }

  /** Without the client's connection being concerned, a step may do to others what it likes. */
  lemma ElsewhereAgrees(x: Whole, step: V.Step, c: nat)
    requires Agree(x) && LeasePool.Ranged(x.server.pool)
    requires V.HandlerOf(step) == Some(c) && c in x.server.peers && c !in x.sys.links
    requires HandlesMessage(step) || step.WriteOffer? || step.Bind?
    ensures Agree(Whole(x.sys, V.Next(x.server, step)))
  {
    OwnPeerOnly(x.server, step, c);
    hide V.Next, Tracks;
  }

  lemma OwnPeerOnly(server: V.Server, step: V.Step, c: nat)
    requires LeasePool.Ranged(server.pool) && V.HandlerOf(step) == Some(c) && c in server.peers
    requires HandlesMessage(step) || step.WriteOffer? || step.Bind?
    ensures var t := V.Next(server, step);
            forall d :: d in server.peers && d != c ==> d in t.peers && t.peers[d] == server.peers[d]
  {
    hide LeasePool.Acquire, LeasePool.Ranged;
  }

  lemma AuthenticateAgrees(x: Whole, c: nat, verified: Option<string>, template: Message, delivered: bool)
    requires Agree(x) && LeasePool.Ranged(x.server.pool) && c in x.sys.links
    ensures Agree(ServerNext(x, V.Authenticate(c, verified), template, delivered))
  {
    hide LeasePool.Ranged, LeasePool.Acquire, S.Next, About, V.AuthenticateNext;
    if x.server.peers[c].phase.Reading? && About(x, V.Authenticate(c, verified)) {
      AuthenticateTracks(x, c, verified);
      MovedAgrees(x, ServerNext(x, V.Authenticate(c, verified), template, delivered), c);
    }
  }

  lemma DiscoverAgrees(x: Whole, c: nat, now: int, template: Message, delivered: bool)
    requires Agree(x) && LeasePool.Ranged(x.server.pool) && c in x.sys.links
    ensures Agree(ServerNext(x, V.Discover(c, now), template, delivered))
  {
    hide LeasePool.Ranged, LeasePool.Acquire, S.Next, About, V.DiscoverNext;
    if x.server.peers[c].phase.Reading? && About(x, V.Discover(c, now)) {
      DiscoverTracks(x, c, now, template);
      MovedAgrees(x, ServerNext(x, V.Discover(c, now), template, delivered), c);
    }
  }

  lemma HandleIPAgrees(x: Whole, c: nat, parsed: Option<V.Packet>, filtered: bool, template: Message, delivered: bool)
    requires Agree(x) && LeasePool.Ranged(x.server.pool) && c in x.sys.links
    ensures Agree(ServerNext(x, V.HandleIP(c, parsed, filtered), template, delivered))
  {
    hide LeasePool.Ranged, LeasePool.Acquire, S.Next, About, V.HandleIPNext;
    if x.server.peers[c].phase.Reading? && About(x, V.HandleIP(c, parsed, filtered)) {
      HandleIPTracks(x, c, parsed, filtered);
      MovedAgrees(x, ServerNext(x, V.HandleIP(c, parsed, filtered), template, delivered), c);
    }
  }

  lemma OfferAgrees(x: Whole, c: nat, template: Message, delivered: bool, ok: bool)
    requires Agree(x) && LeasePool.Ranged(x.server.pool) && c in x.sys.links
    ensures Agree(ServerNext(x, V.WriteOffer(c, ok), template, delivered))
  {
    hide LeasePool.Ranged, S.Next, V.BindNext;
    if x.server.peers[c].phase.Granted? {
      OfferTracks(x, c, template, delivered, ok);
      MovedAgrees(x, ServerNext(x, V.WriteOffer(c, ok), template, delivered), c);
    } else {
      NoOffer(x, c, template, delivered, ok);
    }
  }

  lemma BindAgrees(x: Whole, c: nat, template: Message, delivered: bool)
    requires Agree(x) && LeasePool.Ranged(x.server.pool) && c in x.sys.links
    ensures Agree(ServerNext(x, V.Bind(c), template, delivered))
  {
    hide LeasePool.Ranged, S.Next, V.BindNext;
    if x.server.peers[c].phase.Offered? {
      BindTracks(x, c);
      MovedAgrees(x, ServerNext(x, V.Bind(c), template, delivered), c);
    } else {
      NoBind(x, c);
    }
  }

  lemma OwnStepAgrees(x: Whole, step: V.Step, template: Message, delivered: bool, c: nat)
    requires Agree(x) && LeasePool.Ranged(x.server.pool) && V.HandlerOf(step) == Some(c) && c in x.sys.links
    requires HandlesMessage(step) || step.WriteOffer? || step.Bind?
    ensures Agree(ServerNext(x, step, template, delivered))
  {
    hide Agree, ServerNext;
    match step
    case Authenticate(_, verified) => AuthenticateAgrees(x, c, verified, template, delivered);
    case Discover(_, now) => DiscoverAgrees(x, c, now, template, delivered);
    case HandleIP(_, parsed, filtered) => HandleIPAgrees(x, c, parsed, filtered, template, delivered);
    case WriteOffer(_, ok) => OfferAgrees(x, c, template, delivered, ok);
    case Bind(_) => BindAgrees(x, c, template, delivered);
  }

  /** A step that does not concern the client's connections changes only the server's side. */
  lemma ServerAlone(x: Whole, step: V.Step, template: Message, delivered: bool)
    requires LeasePool.Ranged(x.server.pool)
    requires V.HandlerOf(step).None? || V.HandlerOf(step).value !in x.sys.links
          || !(HandlesMessage(step) || step.WriteOffer? || step.Bind?)
    ensures var y := ServerNext(x, step, template, delivered);
            y == x || y == Whole(x.sys, V.Next(x.server, step))
  {
    hide V.Next, S.Next, LeasePool.Ranged, LeasePool.Acquire;
  }

  lemma NobodyThere(server: V.Server, step: V.Step, c: nat)
    requires LeasePool.Ranged(server.pool) && V.HandlerOf(step) == Some(c) && c !in server.peers
    ensures V.Next(server, step) == server
  {
    hide V.PeerNext, LeasePool.Ranged;
  }

  lemma ServerNextAgrees(x: Whole, step: V.Step, template: Message, delivered: bool)
    requires Agree(x) && LeasePool.Ranged(x.server.pool)
    ensures Agree(ServerNext(x, step, template, delivered))
  {
    hide V.Next, S.Next, LeasePool.Ranged, ServerNext, Tracks, Agree;
    if !HandlesMessage(step) && !step.WriteOffer? && !step.Bind? {
      ServerAlone(x, step, template, delivered);
      OtherStepsUnmoved(x.server, step);
      UnmovedAgrees(x, V.Next(x.server, step));
    } else {
      var c := V.HandlerOf(step).value;
      if c in x.sys.links {
        OwnStepAgrees(x, step, template, delivered, c);
      } else {
        ServerAlone(x, step, template, delivered);
        if c in x.server.peers {
          ElsewhereAgrees(x, step, c);
        } else {
          NobodyThere(x.server, step, c);
        }
      }
    }
  }

  lemma NoOffer(x: Whole, c: nat, template: Message, delivered: bool, ok: bool)
    requires Agree(x) && c in x.sys.links && !x.server.peers[c].phase.Granted?
    ensures S.Next(x.sys, S.WriteOffer(c, template, delivered, ok)) == x.sys
  {
    assert Tracks(x.sys.links[c], x.server.peers[c]);
  }

  lemma NoBind(x: Whole, c: nat)
    requires Agree(x) && c in x.sys.links && !x.server.peers[c].phase.Offered?
    ensures S.Next(x.sys, S.BindAddress(c)) == x.sys
  {
    assert Tracks(x.sys.links[c], x.server.peers[c]);
  }

  lemma ConnectAdds(server: V.Server, c: nat)
    requires LeasePool.Ranged(server.pool) && c !in server.peers
    ensures V.Next(server, V.Connect(c)).peers == server.peers[c := V.NewPeer()]
  {
    hide LeasePool.Ranged, V.PeerNext;
  }

  /** The client's own steps move no handler. */
  lemma ClientNextAgrees(x: Whole, step: S.Step)
    requires Agree(x) && LeasePool.Ranged(x.server.pool)
    ensures Agree(ClientNext(x, step))
  {
    hide S.Next, V.Next, LeasePool.Ranged;
    var y := ClientNext(x, step);
    if S.LinkOf(step).None? && !(step.Connect? && (!x.sys.loop.Idle? || step.k in x.server.peers)) {
      ClientLinks(x.sys, step);
      if step.Connect? { ConnectAdds(x.server, step.k); }
      forall k | k in y.sys.links ensures k in y.server.peers && Tracks(y.sys.links[k], y.server.peers[k]) {
        if k in x.sys.links { assert Tracks(x.sys.links[k], x.server.peers[k]); }
      }
    }
  }

  predicate SameHandler(a: S.Link, b: S.Link) {
    b.id == a.id && b.vip == a.vip && b.serving == a.serving && b.handler == a.handler
  }

  lemma ClientLinks(sys: S.Sys, step: S.Step)
    requires S.LinkOf(step).None?
    ensures forall k :: k in S.Next(sys, step).links ==>
              || (k in sys.links && SameHandler(sys.links[k], S.Next(sys, step).links[k]))
              || (step.Connect? && sys.loop.Idle? && k == step.k && k !in sys.links && S.Next(sys, step).links[k] == S.NEW_LINK)
  {
  }

  lemma {:induction false} RunAgrees(pool: LeasePool.Pool, gateway: bool, steps: seq<Step>) returns (own: seq<S.Step>)
    requires LeasePool.Ranged(pool)
    ensures Agree(Run(pool, gateway, steps))
    ensures Run(pool, gateway, steps).sys == S.Run(own)
  {
    if steps == [] {
      own := [];
    } else {
      var before, last := steps[..|steps| - 1], steps[|steps| - 1];
      own := RunAgrees(pool, gateway, before);
      var x := Run(pool, gateway, before);
      var y := Next(x, last);
      hide Agree, S.Next, V.Next, S.Run;
      match last
      case ClientSide(step) =>
        ClientNextAgrees(x, step);
        if y.sys != x.sys { own := Longer(own, step); }
      case ServerSide(step, template, delivered) =>
        ServerNextAgrees(x, step, template, delivered);
        if y.sys != x.sys { own := Longer(own, Image(x.server, step, template, delivered).value); }
    }
  }

  lemma Longer(own: seq<S.Step>, step: S.Step) returns (more: seq<S.Step>)
    ensures S.Run(more) == S.Next(S.Run(own), step)
  {
    more := own + [step];
    assert more[..|more| - 1] == own;
  }

  /** The main result: in every run of the client and the whole server, with any other connections,
      evictions, cleanups and sweeps in between: whenever the server handles the client's next
      message and that is a packet, it does so for an authenticated peer that is bound to the very
      address that the client became ready with. */
  lemma ReadyMeansBoundOnServer(pool: LeasePool.Pool, gateway: bool, steps: seq<Step>, c: nat)
    requires LeasePool.Ranged(pool)
    requires var x := Run(pool, gateway, steps);
             && c in x.sys.links && c in x.server.peers && x.server.peers[c].phase.Reading?
             && HasNext(x.sys.links[c]) && x.sys.links[c].up[x.sys.links[c].upRead].IPMsg?
    ensures var x := Run(pool, gateway, steps);
            && x.server.peers[c].id != ""
            && x.sys.links[c].readyIP == Some(x.server.peers[c].vip)
  {
    var x := Run(pool, gateway, steps);
    var own := RunAgrees(pool, gateway, steps);
    assert Tracks(x.sys.links[c], x.server.peers[c]);
    hide S.Run, Run;
    S.PacketsFindTheirPeer(own, c);
  }
}
