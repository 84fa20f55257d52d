/** The client's session: what it becomes on connects, disconnects and offers. */
module ClientSession {
  import opened Bytes

  const DISCOVER: string := "DISCOVER"
  const OFFER: string := "OFFER"
  const NAK: string := "NAK"

  datatype Message = Message(
    mtype: string,
    requestID: string,
    ip: string,
    subnetMask: string,
    gateway: string,
    dns: seq<string>,
    mtu: int,
    leaseSeconds: int,
    reason: string)

  datatype OfferError =
    | UnexpectedType | RequestMismatch | MissingAddress | MissingDNS | BadDNS | BadMTU | BadLease

  /** What is wrong with an offer, if anything; isDNS tells whether a text, trimmed, is an IPv4
      address. */
  function OfferProblem(msg: Message, reqID: string, isDNS: string -> bool): Option<OfferError> {
    if msg.mtype != OFFER then Some(UnexpectedType)
    else if msg.requestID != reqID then Some(RequestMismatch)
    else if msg.ip == "" || msg.subnetMask == "" || msg.gateway == "" then Some(MissingAddress)
    else if msg.dns == [] then Some(MissingDNS)
    else if exists i :: 0 <= i < |msg.dns| && !isDNS(msg.dns[i]) then Some(BadDNS)
    else if msg.mtu <= 0 then Some(BadMTU)
    else if msg.leaseSeconds <= 0 then Some(BadLease)
    else None
  }

  /** An offer is in order exactly if it is one, answers the request, names an address, a mask and a
      gateway, names DNS servers and only IPv4 addresses among them, and has an MTU and a lease time. */
  lemma OfferInOrderExactly(msg: Message, reqID: string, isDNS: string -> bool)
    ensures OfferProblem(msg, reqID, isDNS).None? <==>
            && msg.mtype == "OFFER" && msg.requestID == reqID
            && msg.ip != "" && msg.subnetMask != "" && msg.gateway != ""
            && |msg.dns| > 0 && (forall i :: 0 <= i < |msg.dns| ==> isDNS(msg.dns[i]))
            && msg.mtu > 0 && msg.leaseSeconds > 0
  {
  }

  datatype Session = Session(
    conn: Option<nat>,
    clientID: string,
    reqID: string,
    ready: bool,
    remote: string,
    lastIP: string,
    lastMask: string,
    lastGW: string,
    lastDNS: seq<string>)

  const NO_SESSION: Session := Session(None, "", "", false, "", "", "", "", [])

  function Connected(conn: nat, clientID: string, reqID: string, remote: string): Session {
    NO_SESSION.(conn := Some(conn), clientID := clientID, reqID := reqID, remote := remote)
  }

  /** The session after the address of an offer has been configured: ready, if it is still the
      session of the connection that the offer came on. */
  function Configured(s: Session, conn: nat, msg: Message): Session {
    if s.conn != Some(conn) then s
    else s.(ready := true, lastIP := msg.ip, lastMask := msg.subnetMask, lastGW := msg.gateway, lastDNS := msg.dns)
  }

  function ReadyConn(s: Session): Option<nat> {
    if s.ready then s.conn else None
  }

  /** What the client sends: its proof of identity, one discover, and packets. */
  datatype Up = AuthMsg(id: string) | DiscoverMsg(reqID: string) | IPMsg(packet: Bytes)

  /** What the environment does while a connection is greeted: whether the proof of identity and
      the request can be made, and what they carry, and whether each write succeeds. */
  datatype Greeting = Greeting(clientID: Option<string>, reqID: Option<string>, wroteAuth: bool, wroteDiscover: bool)

  /** What goes out on a new connection: nothing without both contents, and the request only behind
      the proof of identity. */
  function SentOnConnect(g: Greeting): seq<Up> {
    if g.clientID.None? || g.reqID.None? || !g.wroteAuth then []
    else [AuthMsg(g.clientID.value)] + (if g.wroteDiscover then [DiscoverMsg(g.reqID.value)] else [])
  }

  /** Whether a message makes the client configure its tunnel device and end up ready. */
  predicate Accepts(s: Session, msg: Message, isDNS: string -> bool, configure: bool) {
    !s.ready && msg.mtype != NAK && configure && OfferProblem(msg, s.reqID, isDNS).None?
  }

  datatype Handled = Accepted | AlreadyReady | Refused

  class Client {
    var session: Session

    constructor ()
      ensures session == NO_SESSION
    {
      session := NO_SESSION;
    }

    /** Greets a new connection: the session starts before the first write, the proof of identity
        goes out before the request, and any failure closes the connection. */
    method OnTCPConnect(conn: nat, g: Greeting, remote: string) returns (sent: seq<Up>, closed: bool)
      modifies this
      ensures session == if g.clientID.Some? && g.reqID.Some?
                         then Connected(conn, g.clientID.value, g.reqID.value, remote) else old(session)
      ensures closed <==> g.clientID.None? || g.reqID.None? || !g.wroteAuth || !g.wroteDiscover
      ensures sent == SentOnConnect(g)
      ensures g.clientID.Some? && g.reqID.Some? ==>
                && session.conn == Some(conn) && Some(session.clientID) == g.clientID && Some(session.reqID) == g.reqID
                && session.remote == remote && !session.ready && session.lastIP == ""
    {
      if g.clientID.None? {
        return [], true;
      }
      if g.reqID.None? {
        return [], true;
      }
      session := Session(Some(conn), g.clientID.value, g.reqID.value, false, remote, "", "", "", []);
      if !g.wroteAuth {
        return [], true;
      }
      sent := [AuthMsg(g.clientID.value)];
      if !g.wroteDiscover {
        return sent, true;
      }
      return sent + [DiscoverMsg(g.reqID.value)], false;
    }

    method OnTCPDisconnect()
      modifies this
      ensures session == NO_SESSION
    {
      session := NO_SESSION;
    }

    /** Handles a message of the address protocol; configure tells whether setting up the tunnel
        device succeeds. The client becomes ready exactly on a valid offer for its own request. */
    method HandleVDHCP(conn: nat, msg: Message, isDNS: string -> bool, configure: bool) returns (h: Handled)
      modifies this
      ensures h.Accepted? <==> Accepts(old(session), msg, isDNS, configure)
      ensures h.Accepted? <==>
                && !old(session.ready) && configure
                && msg.mtype == "OFFER" && msg.requestID == old(session.reqID)
                && msg.ip != "" && msg.subnetMask != "" && msg.gateway != ""
                && |msg.dns| > 0 && (forall i :: 0 <= i < |msg.dns| ==> isDNS(msg.dns[i]))
                && msg.mtu > 0 && msg.leaseSeconds > 0
      ensures h.Accepted? && old(session.conn) == Some(conn) ==>
                && session.ready && session.lastIP == msg.ip && session.lastMask == msg.subnetMask
                && session.lastGW == msg.gateway && session.lastDNS == msg.dns
                && session.conn == Some(conn) && session.clientID == old(session.clientID)
                && session.reqID == old(session.reqID) && session.remote == old(session.remote)
      ensures !h.Accepted? || old(session.conn) != Some(conn) ==> session == old(session)
      ensures h.AlreadyReady? <==> old(session.ready) && msg.mtype != NAK
      ensures session == if h.Accepted? then Configured(old(session), conn, msg) else old(session)
      ensures ReadyConn(session).Some? && ReadyConn(old(session)).None? ==>
                session.conn == Some(conn) && msg.requestID == session.reqID && session.lastIP == msg.ip != ""
    {
      if msg.mtype == NAK {
        return Refused;
      }
      var reqID, alreadyReady := session.reqID, session.ready;
      if alreadyReady {
        return AlreadyReady;
      }
      if OfferProblem(msg, reqID, isDNS).Some? {
        return Refused;
      }
      if !configure {
        return Refused;
      }
      if session.conn == Some(conn) {
        session := session.(ready := true, lastIP := msg.ip, lastMask := msg.subnetMask,
                            lastGW := msg.gateway, lastDNS := msg.dns);
      }
      return Accepted;
    }

    method IsReadyConn(conn: nat) returns (ready: bool)
      ensures ready <==> ReadyConn(session) == Some(conn)
    {
      return session.conn == Some(conn) && session.ready;
    }
  }
}
