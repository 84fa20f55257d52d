/**
  The client and the server's connection handlers together, over one FIFO channel each way per
  connection: the client's reading loop, its packet pump and a concurrent stop on one side, the
  handlers of all connections on the other. Of what the server sends, only the messages of the
  address protocol are kept here.
 */
module Sessions {
  import opened Bytes
  import opened ClientSession

  datatype Handler = Reading | Granted(reqID: string, ip: string) | Offered(ip: string)

  /** One connection. up and down hold all that was ever written, the first upRead and downRead of
      which have been read; readyIP is history: the address of the offer that made the client
      ready on this connection. serving ends when the handler closes its own connection; when another
      one closes it, the handler may still handle a message that it has read, and takes no more
      steps after that. */
  datatype Link = Link(
    up: seq<Up>,
    upRead: nat,
    down: seq<Message>,
    downRead: nat,
    id: string,
    vip: string,
    handler: Handler,
    serving: bool,
    readyIP: Option<string>)

  /** Where the client's connection loop stands. */
  datatype Loop =
    | Idle
    | SendingAuth(k: nat, id: string, reqID: string)
    | SendingDiscover(k: nat, reqID: string)
    | Serving(k: nat)
    | Checking(k: nat, msg: Message)
    | Configuring(k: nat, msg: Message)

  /** The packet pump, possibly holding the connection that it found ready. */
  datatype Pump = Waiting | Writing(k: nat, packet: Bytes)

  /** A packet frame that the server handled: the connection and its peer's fields at that time,
      and the address that the client got ready with. */
  datatype HandledIP = HandledIP(k: nat, id: string, vip: string, readyIP: Option<string>)

  datatype Sys = Sys(session: Session, loop: Loop, pump: Pump, links: map<nat, Link>, handled: seq<HandledIP>)

  /** delivered tells whether the bytes of a write reach the other side, ok whether it reports
      success. */
  datatype Step =
    | Connect(k: nat, clientID: string, reqID: string, remote: string)
    | SendAuth(delivered: bool, ok: bool)
    | SendDiscover(delivered: bool, ok: bool)
    | Receive
    | CheckOffer(isDNS: string -> bool)
    | Configure(ok: bool)
    | Disconnect
    | Stop
    | PumpRead(packet: Bytes)
    | PumpWrite(delivered: bool, ok: bool)
    | ServeAuth(k: nat, verified: bool)
    | ServeDiscover(k: nat, lease: Option<string>, template: Message)
    | ServeIP(k: nat)
    | WriteOffer(k: nat, template: Message, delivered: bool, ok: bool)
    | BindAddress(k: nat)

  const NEW_LINK: Link := Link([], 0, [], 0, "", "", Reading, true, None)

  function Init(): Sys {
    Sys(NO_SESSION, Idle, Waiting, map[], [])
  }

  function SetLink(s: Sys, k: nat, link: Link): Sys {
    s.(links := s.links[k := link])
  }

  function Write(s: Sys, k: nat, msg: Up, sent: bool): Sys
    requires k in s.links
  {
    if sent then SetLink(s, k, s.links[k].(up := s.links[k].up + [msg])) else s
  }

  /** The client takes the next message off its connection. */
  function ReceiveNext(s: Sys, k: nat): Sys
    requires k in s.links && s.loop == Serving(k) && s.links[k].downRead < |s.links[k].down|
  {
    var link := s.links[k];
    var msg := link.down[link.downRead];
    var after := SetLink(s, k, link.(downRead := link.downRead + 1));
    if s.session.conn != Some(k) || msg.mtype == NAK then after else after.(loop := Checking(k, msg))
  }

  function ClientNext(s: Sys, step: Step): Sys {
    match (step, s.loop)
    case (Connect(k, clientID, reqID, remote), Idle) =>
      if k in s.links then s
      else SetLink(s, k, NEW_LINK).(session := Connected(k, clientID, reqID, remote), loop := SendingAuth(k, clientID, reqID))
    case (SendAuth(delivered, ok), SendingAuth(k, id, reqID)) =>
      if k !in s.links then s
      else Write(s, k, AuthMsg(id), delivered || ok).(loop := if ok then SendingDiscover(k, reqID) else Serving(k))
    case (SendDiscover(delivered, ok), SendingDiscover(k, reqID)) =>
      if k !in s.links then s
      else Write(s, k, DiscoverMsg(reqID), delivered || ok).(loop := Serving(k))
    case (Receive, Serving(k)) =>
      if k in s.links && s.links[k].downRead < |s.links[k].down| then ReceiveNext(s, k) else s
    case (CheckOffer(isDNS), Checking(k, msg)) =>
      if s.session.ready || OfferProblem(msg, s.session.reqID, isDNS).Some? then s.(loop := Serving(k))
      else s.(loop := Configuring(k, msg))
    case (Configure(ok), Configuring(k, msg)) =>
      if !ok || k !in s.links then s.(loop := Serving(k))
      else
        var ready := s.(session := Configured(s.session, k, msg), loop := Serving(k));
        if s.session.conn == Some(k) then SetLink(ready, k, s.links[k].(readyIP := Some(msg.ip))) else ready
    case (Disconnect, Serving(_)) => s.(session := NO_SESSION, loop := Idle)
    case (Stop, _) => s.(session := NO_SESSION)
    case (PumpRead(packet), _) =>
      if s.pump.Waiting? && ReadyConn(s.session).Some? then s.(pump := Writing(ReadyConn(s.session).value, packet)) else s
    case (PumpWrite(delivered, ok), _) =>
      if s.pump.Waiting? || s.pump.k !in s.links then s
      else Write(s, s.pump.k, IPMsg(s.pump.packet), delivered || ok).(pump := Waiting)
    case _ => s
  }

  predicate Expecting(link: Link) {
    link.serving && link.handler.Reading? && link.upRead < |link.up|
  }

  /** A server-side step on an existing connection. */
  function LinkNext(s: Sys, step: Step, k: nat): Sys
    requires k in s.links
  {
    var link := s.links[k];
    var read := link.(upRead := link.upRead + 1);
    match step
    case ServeAuth(_, verified) =>
      if !Expecting(link) || !link.up[link.upRead].AuthMsg? then s
      else
        var id := link.up[link.upRead].id;
        if !verified || id == "" || (link.id != "" && link.id != id) then SetLink(s, k, read.(serving := false))
        else SetLink(s, k, read.(id := id))
    case ServeDiscover(_, lease, template) =>
      if !Expecting(link) || !link.up[link.upRead].DiscoverMsg? then s
      else
        var reqID := link.up[link.upRead].reqID;
        if link.id == "" then SetLink(s, k, read.(serving := false))
        else if lease.None?
        then SetLink(s, k, read.(down := link.down + [template.(mtype := NAK, requestID := reqID)]))
        else SetLink(s, k, read.(handler := Granted(reqID, lease.value)))
    case ServeIP(_) =>
      if !Expecting(link) || !link.up[link.upRead].IPMsg? then s
      else if link.id == "" then SetLink(s, k, read.(serving := false))
      else SetLink(s, k, read).(handled := s.handled + [HandledIP(k, link.id, link.vip, link.readyIP)])
    case WriteOffer(_, template, delivered, ok) =>
      if !link.handler.Granted? then s
      else
        var offer := template.(mtype := OFFER, requestID := link.handler.reqID, ip := link.handler.ip);
        var wrote := link.(down := if delivered || ok then link.down + [offer] else link.down);
        SetLink(s, k, if ok then wrote.(handler := Offered(link.handler.ip))
                      else wrote.(handler := Reading, serving := false))
    case BindAddress(_) =>
      if !link.handler.Offered? then s
      else SetLink(s, k, link.(vip := link.handler.ip, handler := Reading))
    case _ => s
  }

  function LinkOf(step: Step): Option<nat> {
    match step
    case ServeAuth(k, _) => Some(k)
    case ServeDiscover(k, _, _) => Some(k)
    case ServeIP(k) => Some(k)
    case WriteOffer(k, _, _, _) => Some(k)
    case BindAddress(k) => Some(k)
    case _ => None
  }

  /** A step that is not enabled leaves the system as it is. */
  function Next(s: Sys, step: Step): Sys {
    match LinkOf(step)
    case Some(k) => if k in s.links then LinkNext(s, step, k) else s
    case None => ClientNext(s, step)
  }

  function Run(steps: seq<Step>): Sys {
    if steps == [] then Init() else Next(Run(steps[..|steps| - 1]), steps[|steps| - 1])
  }

  /* ------------------------------ the invariant ------------------------------ */

  /** What the client writes on a connection: its identity, one discover, and then packets, but
      packets only once it is ready there. */
  ghost predicate Script(link: Link) {
    && (|link.up| > 0 ==> link.up[0].AuthMsg?)
    && (|link.up| > 1 ==> link.up[1].DiscoverMsg?)
    && (forall i :: 2 <= i < |link.up| ==> link.up[i].IPMsg?)
    && (|link.up| > 2 ==> link.readyIP.Some?)
    && link.upRead <= |link.up|
  }

  ghost predicate Offers(link: Link, ip: string) {
    exists i :: 0 <= i < |link.down| && link.down[i].mtype == OFFER && link.down[i].ip == ip
  }

  /** What the server has done about the discover: before it, nothing; after it, any offer on its
      way names the address that the peer is being bound to or is bound to. */
  ghost predicate Progress(link: Link) {
    && (link.upRead < 2 ==> link.handler.Reading? && forall i :: 0 <= i < |link.down| ==> link.down[i].mtype != OFFER)
    && (link.handler.Granted? ==> forall i :: 0 <= i < |link.down| ==> link.down[i].mtype != OFFER)
    && (link.upRead >= 2 && link.serving ==> link.id != "")
    && (forall ip :: Offers(link, ip) ==>
          !link.serving || link.handler == Offered(ip) || (link.handler.Reading? && link.vip == ip))
    && (forall ip :: link.readyIP == Some(ip) ==> Offers(link, ip))
  }

  ghost predicate LoopOK(s: Sys) {
    match s.loop
    case SendingAuth(k, _, _) => k in s.links && s.links[k].up == []
    case SendingDiscover(k, _) => k in s.links && |s.links[k].up| == 1
    case Serving(k) => k in s.links
    case Checking(k, msg) => k in s.links && msg in s.links[k].down
    case Configuring(k, msg) => k in s.links && msg in s.links[k].down && msg.mtype == OFFER
    case Idle => true
  }

  ghost predicate LinkOK(link: Link) {
    Script(link) && Progress(link)
  }

  ghost predicate Inv(s: Sys) {
    && (forall k :: k in s.links ==> LinkOK(s.links[k]))
    && LoopOK(s)
    && (s.session.conn.Some? ==> s.session.conn.value in s.links)
    && (s.session.ready ==> s.session.conn.Some? && s.links[s.session.conn.value].readyIP.Some?)
    && (s.pump.Writing? ==> s.pump.k in s.links && s.links[s.pump.k].readyIP.Some?)
    && (forall i :: 0 <= i < |s.handled| ==> s.handled[i].id != "" && s.handled[i].readyIP == Some(s.handled[i].vip))
  }

  /* ------------------------------ every step keeps it ------------------------------ */

  /** What the server side of a connection may change of it. */
  ghost predicate ServerSide(a: Link, b: Link) {
    b.up == a.up && b.readyIP == a.readyIP && a.down <= b.down
  }

  lemma SetLinkKeeps(s: Sys, k: nat, link: Link)
    requires Inv(s) && k in s.links && LinkOK(link) && ServerSide(s.links[k], link)
    ensures Inv(SetLink(s, k, link))
  {
    hide LinkOK;
    if s.loop.Checking? || s.loop.Configuring? {
      if s.loop.k == k {
        assert s.loop.msg in s.links[k].down;
        var i :| 0 <= i < |s.links[k].down| && s.links[k].down[i] == s.loop.msg;
        assert link.down[i] == s.loop.msg;
      }
    }
  }

  /** On a connection that is still serving, a packet is read only after the address is bound. */
  lemma PacketMeansBound(link: Link)
    requires LinkOK(link) && Expecting(link) && link.up[link.upRead].IPMsg?
    ensures link.id != "" && link.readyIP == Some(link.vip)
  {
    assert Offers(link, link.readyIP.value);
  }

  /** No offers are lost or made by a step that leaves them all alone. */
  lemma SameOffers(a: Link, b: Link)
    requires b.down == a.down
    ensures forall ip :: Offers(a, ip) <==> Offers(b, ip)
  {}

  lemma NAKIsNoOffer(a: Link, b: Link, nak: Message)
    requires b.down == a.down + [nak] && nak.mtype == NAK
    ensures forall ip :: Offers(a, ip) <==> Offers(b, ip)
  {
    forall ip | Offers(a, ip) ensures Offers(b, ip) {
      var i :| 0 <= i < |a.down| && a.down[i].mtype == OFFER && a.down[i].ip == ip;
      assert b.down[i] == a.down[i];
    }
  }

  lemma ServeKeepsLink(link: Link, id: string, serving: bool)
    requires LinkOK(link) && Expecting(link)
    requires serving ==> id != "" && (link.up[link.upRead].AuthMsg? || id == link.id)
    requires !link.up[link.upRead].DiscoverMsg? || !serving
    ensures LinkOK(link.(upRead := link.upRead + 1, id := id, serving := serving))
  {
    SameOffers(link, link.(upRead := link.upRead + 1, id := id, serving := serving));
  }

  lemma DiscoverKeepsLink(link: Link, down: seq<Message>, handler: Handler)
    requires LinkOK(link) && Expecting(link) && link.up[link.upRead].DiscoverMsg? && link.id != ""
    requires (handler.Granted? && down == link.down)
          || (handler.Reading? && exists nak: Message :: down == link.down + [nak] && nak.mtype == NAK)
    ensures LinkOK(link.(upRead := link.upRead + 1, down := down, handler := handler))
  {
    var next := link.(upRead := link.upRead + 1, down := down, handler := handler);
    assert link.upRead == 1;
    if handler.Granted? {
      SameOffers(link, next);
    } else {
      var nak :| down == link.down + [nak] && nak.mtype == NAK;
      NAKIsNoOffer(link, next, nak);
    }
  }

  lemma OfferKeepsLink(link: Link, down: seq<Message>, offer: Message, handler: Handler, serving: bool)
    requires LinkOK(link) && link.handler.Granted? && offer.ip == link.handler.ip
    requires down == link.down || down == link.down + [offer]
    requires (handler == Offered(offer.ip) && serving == link.serving) || (handler.Reading? && !serving)
    ensures LinkOK(link.(down := down, handler := handler, serving := serving))
  {
    var next := link.(down := down, handler := handler, serving := serving);
    forall ip | Offers(next, ip) ensures ip == offer.ip {}
  }

  lemma BindKeepsLink(link: Link)
    requires LinkOK(link)
    ensures link.handler.Offered? ==> LinkOK(link.(vip := link.handler.ip, handler := Reading))
    ensures link.downRead < |link.down| ==> LinkOK(link.(downRead := link.downRead + 1))
  {
    if link.handler.Offered? { SameOffers(link, link.(vip := link.handler.ip, handler := Reading)); }
    SameOffers(link, link.(downRead := link.downRead + 1));
  }

  lemma ReadyKeepsLink(link: Link, msg: Message)
    requires LinkOK(link) && msg in link.down && msg.mtype == OFFER
    ensures LinkOK(link.(readyIP := Some(msg.ip)))
  {
    var next := link.(readyIP := Some(msg.ip));
    SameOffers(link, next);
    assert Offers(next, msg.ip);
  }

  lemma {:induction false} ServeKeeps(s: Sys, k: nat, step: Step)
    requires Inv(s) && k in s.links && (step.ServeAuth? || step.ServeDiscover?)
    ensures Inv(LinkNext(s, step, k))
  {
    hide LinkOK;
    var link := s.links[k];
    var next := LinkNext(s, step, k).links[k];
    assert next == link || (LinkOK(next) && ServerSide(link, next)) by {
      hide Inv;
      if Expecting(link) && step.ServeAuth? && link.up[link.upRead].AuthMsg? {
        ServeKeepsLink(link, next.id, next.serving);
      }
      if Expecting(link) && step.ServeDiscover? && link.up[link.upRead].DiscoverMsg? {
        if link.id == "" {
          ServeKeepsLink(link, link.id, false);
        } else {
          DiscoverKeepsLink(link, next.down, next.handler);
        }
      }
    }
    SetLinkKeeps(s, k, next);
  }

  lemma {:induction false} ServeIPKeeps(s: Sys, k: nat)
    requires Inv(s) && k in s.links
    ensures Inv(LinkNext(s, ServeIP(k), k))
  {
    hide LinkOK;
    var link := s.links[k];
    if Expecting(link) && link.up[link.upRead].IPMsg? {
      PacketMeansBound(link);
      ServeKeepsLink(link, link.id, true);
      SetLinkKeeps(s, k, link.(upRead := link.upRead + 1));
    }
  }

  lemma {:induction false} WriteOfferKeeps(s: Sys, k: nat, template: Message, delivered: bool, ok: bool)
    requires Inv(s) && k in s.links
    ensures Inv(LinkNext(s, WriteOffer(k, template, delivered, ok), k))
  {
    hide LinkOK;
    var link := s.links[k];
    if link.handler.Granted? {
      var offer := template.(mtype := OFFER, requestID := link.handler.reqID, ip := link.handler.ip);
      var next := LinkNext(s, WriteOffer(k, template, delivered, ok), k).links[k];
      OfferKeepsLink(link, next.down, offer, next.handler, next.serving);
      SetLinkKeeps(s, k, next);
    }
  }

  lemma {:induction false} BindKeeps(s: Sys, k: nat)
    requires Inv(s) && k in s.links
    ensures Inv(LinkNext(s, BindAddress(k), k))
  {
    hide LinkOK;
    BindKeepsLink(s.links[k]);
    SetLinkKeeps(s, k, LinkNext(s, BindAddress(k), k).links[k]);
  }

  lemma {:induction false} LinkNextKeeps(s: Sys, step: Step, k: nat)
    requires Inv(s) && LinkOf(step) == Some(k) && k in s.links
    ensures Inv(LinkNext(s, step, k))
  {
    hide Inv, LinkNext;
    match step
    case ServeAuth(_, _) => ServeKeeps(s, k, step);
    case ServeDiscover(_, _, _) => ServeKeeps(s, k, step);
    case ServeIP(_) => ServeIPKeeps(s, k);
    case WriteOffer(_, template, delivered, ok) => WriteOfferKeeps(s, k, template, delivered, ok);
    case BindAddress(_) => BindKeeps(s, k);
    case _ =>
  }

  lemma {:induction false} ConnectKeeps(s: Sys, k: nat, clientID: string, reqID: string, remote: string)
    requires Inv(s)
    ensures Inv(ClientNext(s, Connect(k, clientID, reqID, remote)))
  {
    assert LinkOK(NEW_LINK);
    hide LinkOK;
  }

  /** Another message on the client's way keeps a connection in order, if it is the one that is due. */
  lemma WriteKeepsLink(link: Link, msg: Up)
    requires LinkOK(link)
    requires |link.up| == 0 ==> msg.AuthMsg?
    requires |link.up| == 1 ==> msg.DiscoverMsg?
    requires |link.up| >= 2 ==> msg.IPMsg? && link.readyIP.Some?
    ensures LinkOK(link.(up := link.up + [msg]))
  {
    SameOffers(link, link.(up := link.up + [msg]));
  }

  /** A client that is ready on a connection has already sent its discover there. */
  lemma ReadyAfterDiscover(link: Link)
    requires LinkOK(link) && link.readyIP.Some?
    ensures |link.up| >= 2
  {
    assert Offers(link, link.readyIP.value);
  }

  lemma {:induction false} SendKeeps(s: Sys, step: Step)
    requires Inv(s) && (step.SendAuth? || step.SendDiscover?)
    ensures Inv(ClientNext(s, step))
  {
    hide LinkOK;
    match (step, s.loop)
    case (SendAuth(_, _), SendingAuth(k, id, _)) => WriteKeepsLink(s.links[k], AuthMsg(id));
    case (SendDiscover(_, _), SendingDiscover(k, reqID)) => WriteKeepsLink(s.links[k], DiscoverMsg(reqID));
    case _ =>
  }

  lemma {:induction false} PumpWriteKeeps(s: Sys, delivered: bool, ok: bool)
    requires Inv(s)
    ensures Inv(ClientNext(s, PumpWrite(delivered, ok)))
  {
    hide LinkOK;
    if s.pump.Writing? {
      ReadyAfterDiscover(s.links[s.pump.k]);
      WriteKeepsLink(s.links[s.pump.k], IPMsg(s.pump.packet));
    }
  }

  lemma {:induction false} ReceiveKeeps(s: Sys)
    requires Inv(s)
    ensures Inv(ClientNext(s, Receive))
  {
    hide LinkOK;
    if s.loop.Serving? && s.links[s.loop.k].downRead < |s.links[s.loop.k].down| {
      var link := s.links[s.loop.k];
      BindKeepsLink(link);
      SetLinkKeeps(s, s.loop.k, link.(downRead := link.downRead + 1));
      assert link.down[link.downRead] in link.down;
    }
  }

  /** The client gets ready with an address that was offered to it on the connection. */
  lemma {:induction false} ConfigureKeeps(s: Sys, ok: bool)
    requires Inv(s)
    ensures Inv(ClientNext(s, Configure(ok)))
  {
    hide LinkOK;
    if s.loop.Configuring? && ok {
      ReadyKeepsLink(s.links[s.loop.k], s.loop.msg);
    }
  }

  /** The client's steps that touch no connection. */
  lemma {:induction false} QuietKeeps(s: Sys, step: Step)
    requires Inv(s) && (step.CheckOffer? || step.Disconnect? || step.Stop? || step.PumpRead?)
    ensures Inv(ClientNext(s, step))
  {
    hide LinkOK;
    match (step, s.loop)
    case (CheckOffer(isDNS), Checking(k, msg)) => assert s.links[k].down == ClientNext(s, step).links[k].down;
    case _ =>
  }

  lemma {:induction false} ClientNextKeeps(s: Sys, step: Step)
    requires Inv(s) && LinkOf(step) == None
    ensures Inv(ClientNext(s, step))
  {
    match step
    case Connect(k, clientID, reqID, remote) => hide ClientNext, Inv; ConnectKeeps(s, k, clientID, reqID, remote);
    case SendAuth(_, _) => hide ClientNext, Inv; SendKeeps(s, step);
    case SendDiscover(_, _) => hide ClientNext, Inv; SendKeeps(s, step);
    case PumpWrite(delivered, ok) => hide ClientNext, Inv; PumpWriteKeeps(s, delivered, ok);
    case Receive => hide ClientNext, Inv; ReceiveKeeps(s);
    case Configure(ok) => hide ClientNext, Inv; ConfigureKeeps(s, ok);
    case _ => hide ClientNext, Inv; QuietKeeps(s, step);
  }

  lemma {:induction false} RunKeeps(steps: seq<Step>)
    ensures Inv(Run(steps))
  {
    if steps != [] {
      var s, step := Run(steps[..|steps| - 1]), steps[|steps| - 1];
      RunKeeps(steps[..|steps| - 1]);
      hide Inv, ClientNext, LinkNext;
      match LinkOf(step)
      case Some(k) => if k in s.links { LinkNextKeeps(s, step, k); }
      case None => ClientNextKeeps(s, step);
    }
  }

  /** The main result: in every run, every packet frame from a client that the server handles
      (that is, gets as far as looking at its packet) comes from an authenticated peer, bound to
      the very address that the client became ready with, although the offer of that address is
      written before it is bound. */
  lemma {:induction false} ReadyMeansBound(steps: seq<Step>)
    ensures forall i :: 0 <= i < |Run(steps).handled| ==>
              Run(steps).handled[i].id != "" && Run(steps).handled[i].readyIP == Some(Run(steps).handled[i].vip)
  {
    RunKeeps(steps);
  }

  /** And no packet of such a client closes its connection: whenever the next frame is a packet,
      the peer that reads it is authenticated and bound. */
  lemma {:induction false} PacketsFindTheirPeer(steps: seq<Step>, k: nat)
    requires k in Run(steps).links && Expecting(Run(steps).links[k])
    requires Run(steps).links[k].up[Run(steps).links[k].upRead].IPMsg?
    ensures Run(steps).links[k].id != "" && Run(steps).links[k].readyIP == Some(Run(steps).links[k].vip)
    ensures Next(Run(steps), ServeIP(k)).links[k].serving
    ensures |Next(Run(steps), ServeIP(k)).handled| == |Run(steps).handled| + 1
  {
    hide LinkOK;
    RunKeeps(steps);
    PacketMeansBound(Run(steps).links[k]);
    hide Inv;
  }
}
