/** That clients do become ready: a run of the client and the whole server, from any state in which the
    client may connect, that ends with the client ready on the address that the server has bound to it. */
module GettingReady {
  import opened Bytes
  import opened ClientSession
  import opened Joint
  import LeasePool
  import Ipv4
  import S = Sessions
  import V = ServerSteps
  import C = ClientSteps
  import LeaseBacked

  /** What the server's configuration has to put into an offer. */
  predicate GoodTemplate(template: Message, isDNS: string -> bool) {
    && template.subnetMask != "" && template.gateway != ""
    && template.dns != [] && (forall i :: 0 <= i < |template.dns| ==> isDNS(template.dns[i]))
    && template.mtu > 0 && template.leaseSeconds > 0
  }

  /** The client may connect as k with this identity, and the server has an address for it. */
  ghost predicate MayConnect(x: Whole, k: nat, id: string, now: int) {
    && LeasePool.Ranged(x.server.pool) && LeasePool.Inv(x.server.pool)
    && x.sys.loop.Idle? && k !in x.sys.links && k !in x.server.peers && id != ""
    && LeasePool.Acquire(x.server.pool, id, now).1.Ok?
  }

  function Greeted(x: Whole, k: nat, id: string, reqID: string, remote: string): (r: Whole)
    requires LeasePool.Ranged(x.server.pool)
    ensures LeasePool.Ranged(r.server.pool)
  {
    Next(Next(Next(x, ClientSide(S.Connect(k, id, reqID, remote))), ClientSide(S.SendAuth(true, true))),
         ClientSide(S.SendDiscover(true, true)))
  }

  function Answered(x: Whole, k: nat, id: string, now: int, template: Message): (r: Whole)
    requires LeasePool.Ranged(x.server.pool)
    ensures LeasePool.Ranged(r.server.pool)
  {
    Next(Next(Next(x, ServerSide(V.Authenticate(k, Some(id)), template, true)),
              ServerSide(V.Discover(k, now), template, true)),
         ServerSide(V.WriteOffer(k, true), template, true))
  }

  function Handled(x: Whole, isDNS: string -> bool): (r: Whole)
    requires LeasePool.Ranged(x.server.pool)
    ensures LeasePool.Ranged(r.server.pool)
  {
    Next(Next(Next(x, ClientSide(S.Receive)), ClientSide(S.CheckOffer(isDNS))), ClientSide(S.Configure(true)))
  }

  /** The whole run: greeting, answering, handling the answer, and binding at last. */
  function ReadyRun(x: Whole, k: nat, id: string, reqID: string, remote: string, now: int, template: Message,
                    isDNS: string -> bool): Whole
    requires LeasePool.Ranged(x.server.pool)
  {
    Next(Handled(Answered(Greeted(x, k, id, reqID, remote), k, id, now, template), isDNS),
         ServerSide(V.Bind(k), template, true))
  }

  lemma GreetedIs(x: Whole, k: nat, id: string, reqID: string, remote: string)
    requires LeasePool.Ranged(x.server.pool) && x.sys.loop.Idle? && k !in x.sys.links && k !in x.server.peers
    ensures var y := Greeted(x, k, id, reqID, remote);
            && y.sys.session == Connected(k, id, reqID, remote) && y.sys.loop == S.Serving(k)
            && y.sys.links == x.sys.links[k := S.NEW_LINK.(up := [AuthMsg(id), DiscoverMsg(reqID)])]
            && y.server.pool == x.server.pool && y.server.peers == x.server.peers[k := V.NewPeer()]
            && y.server.maps.ips == x.server.maps.ips
  {
    var g := Greeting(Some(id), Some(reqID), true, true);
    C.GreetStepsGreet(x.sys, k, g, remote);
    ConnectIs(x.server, k);
    assert [AuthMsg(id)] + [DiscoverMsg(reqID)] == [AuthMsg(id), DiscoverMsg(reqID)];
    hide S.Next, V.Next, LeasePool.Ranged;
    assert Greeted(x, k, id, reqID, remote) == Whole(C.GreetSteps(x.sys, k, g, remote), V.Next(x.server, V.Connect(k)));
  }

  lemma ConnectIs(server: V.Server, k: nat)
    requires LeasePool.Ranged(server.pool) && k !in server.peers
    ensures var t := V.Next(server, V.Connect(k));
            t.pool == server.pool && t.peers == server.peers[k := V.NewPeer()] && t.maps.ips == server.maps.ips
  {
    hide LeasePool.Ranged, V.PeerNext;
  }

  /** The client's messages are out, and the server's handler is at the first of them. */
  predicate Waits(y: Whole, k: nat, id: string, reqID: string) {
    && k in y.sys.links && y.sys.links[k] == S.NEW_LINK.(up := [AuthMsg(id), DiscoverMsg(reqID)])
    && k in y.server.peers && y.server.peers[k] == V.NewPeer()
  }

  lemma AuthenticatedIs(y: Whole, k: nat, id: string, reqID: string, template: Message)
    requires LeasePool.Ranged(y.server.pool) && Waits(y, k, id, reqID) && id != ""
    ensures var z := Next(y, ServerSide(V.Authenticate(k, Some(id)), template, true));
            && z.sys == S.SetLink(y.sys, k, y.sys.links[k].(upRead := 1, id := id))
            && z.server == V.SetPeer(y.server, k, V.NewPeer().(id := id))
  {
    hide LeasePool.Ranged;
  }

  lemma DiscoveredIs(z: Whole, k: nat, id: string, reqID: string, now: int, template: Message)
    requires LeasePool.Ranged(z.server.pool) && id != ""
    requires k in z.sys.links && z.sys.links[k] == S.NEW_LINK.(up := [AuthMsg(id), DiscoverMsg(reqID)], upRead := 1, id := id)
    requires k in z.server.peers && z.server.peers[k] == V.NewPeer().(id := id)
    requires LeasePool.Acquire(z.server.pool, id, now).1.Ok?
    ensures var ip := LeasePool.Acquire(z.server.pool, id, now).1.value.ip;
            var u := Next(z, ServerSide(V.Discover(k, now), template, true));
            && u.sys == S.SetLink(z.sys, k, z.sys.links[k].(upRead := 2, handler := S.Granted(reqID, ip)))
            && k in u.server.peers && u.server.peers == z.server.peers[k := z.server.peers[k].(phase := V.Granted(ip))]
            && u.server.maps == z.server.maps
  {
    hide LeasePool.Ranged, LeasePool.Acquire;
  }

  lemma OfferedIs(u: Whole, k: nat, reqID: string, ip: string, template: Message)
    requires LeasePool.Ranged(u.server.pool)
    requires k in u.sys.links && u.sys.links[k].handler == S.Granted(reqID, ip) && u.sys.links[k].down == []
    requires k in u.server.peers && u.server.peers[k].phase == V.Granted(ip)
    ensures var w := Next(u, ServerSide(V.WriteOffer(k, true), template, true));
            && w.sys == S.SetLink(u.sys, k, u.sys.links[k].(handler := S.Offered(ip),
                                                            down := [template.(mtype := OFFER, requestID := reqID, ip := ip)]))
            && w.server == V.SetPeer(u.server, k, u.server.peers[k].(phase := V.Offered(ip)))
  {
    hide LeasePool.Ranged;
    assert [] + [template.(mtype := OFFER, requestID := reqID, ip := ip)] == [template.(mtype := OFFER, requestID := reqID, ip := ip)];
  }

  lemma AnsweredIs(y: Whole, k: nat, id: string, reqID: string, now: int, template: Message)
    requires LeasePool.Ranged(y.server.pool) && Waits(y, k, id, reqID) && id != ""
    requires LeasePool.Acquire(y.server.pool, id, now).1.Ok?
    ensures var ip := LeasePool.Acquire(y.server.pool, id, now).1.value.ip;
            var w := Answered(y, k, id, now, template);
            && k in w.sys.links && w.sys.links[k].down == [template.(mtype := OFFER, requestID := reqID, ip := ip)]
            && w.sys.links[k].downRead == 0 && w.sys.session == y.sys.session && w.sys.loop == y.sys.loop
            && w.sys.links[k].handler == S.Offered(ip)
            && k in w.server.peers && w.server.peers[k] == V.NewPeer().(id := id, phase := V.Offered(ip))
  {
    hide LeasePool.Ranged, LeasePool.Acquire, Next;
    AuthenticatedIs(y, k, id, reqID, template);
    var z := Next(y, ServerSide(V.Authenticate(k, Some(id)), template, true));
    DiscoveredIs(z, k, id, reqID, now, template);
    var u := Next(z, ServerSide(V.Discover(k, now), template, true));
    OfferedIs(u, k, reqID, LeasePool.Acquire(y.server.pool, id, now).1.value.ip, template);
  }

  lemma HandledIs(w: Whole, k: nat, isDNS: string -> bool)
    requires LeasePool.Ranged(w.server.pool)
    requires w.sys.loop == S.Serving(k) && k in w.sys.links && w.sys.links[k].downRead < |w.sys.links[k].down|
    requires w.sys.session.conn == Some(k)
    ensures Handled(w, isDNS) == Whole(C.OfferSteps(w.sys, isDNS, true), w.server)
  {
    hide S.Next, LeasePool.Ranged;
  }

  lemma BoundIs(w: Whole, k: nat, ip: string, template: Message)
    requires LeasePool.Ranged(w.server.pool) && k in w.server.peers && w.server.peers[k].phase == V.Offered(ip)
    requires k in w.sys.links && w.sys.links[k].handler == S.Offered(ip)
    ensures var v := Next(w, ServerSide(V.Bind(k), template, true));
            && v.sys == S.SetLink(w.sys, k, w.sys.links[k].(vip := ip, handler := S.Reading))
            && v.server == V.BindNext(w.server, k, w.server.peers[k])
  {
    hide LeasePool.Ranged, V.BindNext;
  }

  lemma BindsIt(server: V.Server, k: nat, ip: string)
    requires k in server.peers && server.peers[k].phase == V.Offered(ip)
    ensures var t := V.BindNext(server, k, server.peers[k]);
            && k in t.peers && t.peers[k].id == server.peers[k].id && t.peers[k].vip == ip
            && ip in t.maps.ips && t.maps.ips[ip] == k
  {
  }

  /** The main result: whenever the client may connect and the server has an address for it, that run
      ends with the client ready on this connection and this address, and with the server leading the
      address to the connection, which is identified and bound to it. */
  lemma ClientsGetReady(x: Whole, k: nat, id: string, reqID: string, remote: string, now: int, template: Message,
                        isDNS: string -> bool)
    requires MayConnect(x, k, id, now) && GoodTemplate(template, isDNS)
    ensures var ip := LeasePool.Acquire(x.server.pool, id, now).1.value.ip;
            var v := ReadyRun(x, k, id, reqID, remote, now, template, isDNS);
            && ip != ""
            && v.sys.session.ready && v.sys.session.conn == Some(k) && v.sys.session.lastIP == ip
            && v.sys.session.lastMask == template.subnetMask && v.sys.session.lastGW == template.gateway
            && v.sys.session.lastDNS == template.dns
            && k in v.server.peers && v.server.peers[k].id == id && v.server.peers[k].vip == ip
            && ip in v.server.maps.ips && v.server.maps.ips[ip] == k
  {
    LeaseBacked.AcquireBacks(x.server.pool, id, now);
    hide LeasePool.Inv, LeasePool.Acquire, LeasePool.Ranged, Greeted, Answered, Handled, Next, C.OfferSteps;
    var ip := LeasePool.Acquire(x.server.pool, id, now).1.value.ip;
    var y := Greeted(x, k, id, reqID, remote);
    GreetedIs(x, k, id, reqID, remote);
    AnsweredIs(y, k, id, reqID, now, template);
    var w := Answered(y, k, id, now, template);
    var offer := template.(mtype := OFFER, requestID := reqID, ip := ip);
    HandledIs(w, k, isDNS);
    OfferInOrderExactly(offer, reqID, isDNS);
    hide OfferProblem;
    C.OfferStepsHandle(w.sys, k, isDNS, true);
    var h := Handled(w, isDNS);
    BoundIs(h, k, ip, template);
    BindsIt(h.server, k, ip);
  }
}
