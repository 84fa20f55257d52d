/** The client's handlers, run alone, are the client's steps one after the other. */
module ClientSteps {
  import opened Bytes
  import opened ClientSession
  import opened Sessions

  /** Greeting a new connection, when both its contents could be made; a step that the outcome of the
      one before does not call for does nothing. */
  function GreetSteps(s: Sys, k: nat, g: Greeting, remote: string): Sys
    requires g.clientID.Some? && g.reqID.Some?
  {
    Next(Next(Next(s, Connect(k, g.clientID.value, g.reqID.value, remote)),
              SendAuth(g.wroteAuth, g.wroteAuth)),
         SendDiscover(g.wroteDiscover, g.wroteDiscover))
  }

  /** The session is the one that the object has after greeting, and what it sends is on its way. */
  lemma GreetStepsGreet(s: Sys, k: nat, g: Greeting, remote: string)
    requires s.loop.Idle? && k !in s.links && g.clientID.Some? && g.reqID.Some?
    ensures var t := GreetSteps(s, k, g, remote);
            && t.session == Connected(k, g.clientID.value, g.reqID.value, remote)
            && t.loop == Serving(k) && t.pump == s.pump && t.handled == s.handled
            && t.links == s.links[k := NEW_LINK.(up := SentOnConnect(g))]
  {
    var id, reqID := g.clientID.value, g.reqID.value;
    var s1 := Next(s, Connect(k, id, reqID, remote));
    var s2 := Next(s1, SendAuth(g.wroteAuth, g.wroteAuth));
    assert s1.links == s.links[k := NEW_LINK] && s1.loop == SendingAuth(k, id, reqID);
    if g.wroteAuth {
      assert [] + [AuthMsg(id)] == [AuthMsg(id)] == [AuthMsg(id)] + [];
      assert s2.links == s.links[k := NEW_LINK.(up := [AuthMsg(id)])] && s2.loop == SendingDiscover(k, reqID);
      var t := Next(s2, SendDiscover(g.wroteDiscover, g.wroteDiscover));
      assert t.links == s.links[k := NEW_LINK.(up := if g.wroteDiscover then [AuthMsg(id)] + [DiscoverMsg(reqID)] else [AuthMsg(id)])];
    } else {
      assert s2.links == s.links[k := NEW_LINK] && s2.loop == Serving(k);
    }
  }

  /** Taking the next message off the connection and handling it. */
  function OfferSteps(s: Sys, isDNS: string -> bool, configure: bool): Sys {
    Next(Next(Next(s, Receive), CheckOffer(isDNS)), Configure(configure))
  }

  /** The session is the one that the object has after handling the message, and the connection knows
      the address that the client got ready with if it did. */
  lemma OfferStepsHandle(s: Sys, k: nat, isDNS: string -> bool, configure: bool)
    requires s.loop == Serving(k) && k in s.links && s.links[k].downRead < |s.links[k].down|
    requires s.session.conn == Some(k)
    ensures var msg, t := s.links[k].down[s.links[k].downRead], OfferSteps(s, isDNS, configure);
            var accepted := Accepts(s.session, msg, isDNS, configure);
            && t.session == (if accepted then Configured(s.session, k, msg) else s.session)
            && t.loop == Serving(k) && t.pump == s.pump && t.handled == s.handled
            && t.links == s.links[k := s.links[k].(downRead := s.links[k].downRead + 1,
                                                   readyIP := if accepted then Some(msg.ip) else s.links[k].readyIP)]
  {
    hide OfferProblem;
    var link := s.links[k];
    var read := link.(downRead := link.downRead + 1);
    var s1 := Next(s, Receive);
    assert s1.links == s.links[k := read] && s1.session == s.session;
  }

  /** A message for a connection that is no longer the session's is passed over. */
  lemma StaleMessage(s: Sys, k: nat)
    requires s.loop == Serving(k) && k in s.links && s.links[k].downRead < |s.links[k].down|
    requires s.session.conn != Some(k)
    ensures Next(s, Receive) == SetLink(s, k, s.links[k].(downRead := s.links[k].downRead + 1))
  {
  }
}
