/** The server's peer registry: three maps to the connected peers. */
module Registry {
  import opened Bytes

  const SEND_QUEUE_SIZE: nat := 16 * 1024

  /** The registry's maps with each peer named by its connection. */
  datatype Maps = Maps(conns: map<nat, nat>, ips: map<string, nat>, ids: map<string, nat>)

  const NO_PEERS: Maps := Maps(map[], map[], map[])

  /* ------------------------------ the operations on values ------------------------------ */

  function AddConn(m: Maps, c: nat): Maps {
    m.(conns := m.conns[c := c])
  }

  function BindIP(m: Maps, c: nat, id: string, ip: string): Maps {
    m.(ips := m.ips[ip := c], ids := if id != "" then m.ids[id := c] else m.ids)
  }

  /** Drops a key only while it still leads to the given peer. */
  function DropOwn<K(!new)>(m: map<K, nat>, k: K, c: nat): (r: map<K, nat>)
    ensures forall x :: x in r <==> x in m && !(x == k && m[x] == c)
    ensures forall x :: x in r ==> r[x] == m[x]
  {
    if k in m && m[k] == c then m - {k} else m
  }

  function Remove(m: Maps, c: nat, id: string, ip: string): Maps {
    Maps(DropOwn(m.conns, c, c),
         if ip != "" then DropOwn(m.ips, ip, c) else m.ips,
         if id != "" then DropOwn(m.ids, id, c) else m.ids)
  }

  /* ------------------------------ the laws of removal ------------------------------ */

  ghost predicate Reachable(m: Maps, c: nat) {
    || (exists k :: k in m.conns && m.conns[k] == c)
    || (exists ip :: ip in m.ips && m.ips[ip] == c)
    || (exists id :: id in m.ids && m.ids[id] == c)
  }

  /** Removing a peer leaves every entry that leads to another peer as it is, and adds none. */
  lemma RemoveSparesOthers(m: Maps, c: nat, id: string, ip: string, d: nat)
    requires d != c
    ensures var r := Remove(m, c, id, ip);
            && (forall k :: k in m.conns && m.conns[k] == d <==> k in r.conns && r.conns[k] == d)
            && (forall a :: a in m.ips && m.ips[a] == d <==> a in r.ips && r.ips[a] == d)
            && (forall x :: x in m.ids && m.ids[x] == d <==> x in r.ids && r.ids[x] == d)
  {
  }

  /** A removed peer stays reachable exactly through the entries under other keys than its own
      connection, address and identity. */
  lemma ReachableAfterRemove(m: Maps, c: nat, id: string, ip: string)
    ensures Reachable(Remove(m, c, id, ip), c) <==>
            || (exists k :: k in m.conns && m.conns[k] == c && k != c)
            || (exists a :: a in m.ips && m.ips[a] == c && (a != ip || ip == ""))
            || (exists x :: x in m.ids && m.ids[x] == c && (x != id || id == ""))
  {
    var r := Remove(m, c, id, ip);
    assert forall k :: k in r.conns && r.conns[k] == c <==> k in m.conns && m.conns[k] == c && k != c;
    assert forall a :: a in r.ips && r.ips[a] == c <==> a in m.ips && m.ips[a] == c && (a != ip || ip == "");
    assert forall x :: x in r.ids && r.ids[x] == c <==> x in m.ids && m.ids[x] == c && (x != id || id == "");
  }

  /* ------------------------------ the objects ------------------------------ */

  datatype Queueing = Taken | Refused | Waits

  class ClientPeer {
    const conn: nat
    var id: string
    var virtualIP: string
    var sendQueue: seq<Bytes>
    var done: bool
    var connOpen: bool

    constructor (conn: nat)
      ensures this.conn == conn && id == "" && virtualIP == "" && sendQueue == [] && !done && connOpen
    {
      this.conn := conn;
      id, virtualIP, sendQueue, done, connOpen := "", "", [], false, true;
    }

    method CloseConn()
      modifies `connOpen
      ensures !connOpen
    {
      connOpen := false;
    }

    /** A peer that has an identity keeps it. */
    method SetIdentity(newID: string) returns (ok: bool)
      modifies `id
      ensures ok <==> old(id) == "" || old(id) == newID
      ensures id == if ok then newID else old(id)
    {
      if id != "" && id != newID {
        return false;
      }
      id := newID;
      return true;
    }

    predicate Authed()
      reads this
    {
      id != ""
    }

    predicate OwnsIP(ip: string)
      reads this
    {
      virtualIP != "" && virtualIP == ip
    }

    /** Queues a packet, or refuses it because the peer is closed; with both possible, either may
        happen. While the peer is open and the queue full, the call waits. */
    method Enqueue(pkt: Bytes, preferDone: bool) returns (outcome: Queueing)
      modifies `sendQueue
      ensures outcome.Refused? <==> done && (preferDone || |old(sendQueue)| >= SEND_QUEUE_SIZE)
      ensures outcome.Waits? <==> !done && |old(sendQueue)| >= SEND_QUEUE_SIZE
      ensures sendQueue == if outcome.Taken? then old(sendQueue) + [pkt] else old(sendQueue)
    {
      if done && (preferDone || |sendQueue| >= SEND_QUEUE_SIZE) {
        return Refused;
      }
      if |sendQueue| >= SEND_QUEUE_SIZE {
        return Waits;
      }
      sendQueue := sendQueue + [pkt];
      return Taken;
    }

    method Close()
      modifies `done, `connOpen
      ensures done && !connOpen
    {
      done := true;
      CloseConn();
    }

    method Dequeue() returns (pkt: Bytes)
      requires sendQueue != []
      modifies `sendQueue
      ensures [pkt] + sendQueue == old(sendQueue)
    {
      pkt := sendQueue[0];
      sendQueue := sendQueue[1..];
    }
  }

  /** A map to peers, with each peer named by its connection. */
  function Names<K>(m: map<K, ClientPeer>): map<K, nat> {
    map k | k in m :: m[k].conn
  }

  ghost predicate OwnConnections(peers: set<ClientPeer>) {
    forall p, q :: p in peers && q in peers && p.conn == q.conn ==> p == q
  }

  lemma NamesPut<K>(m: map<K, ClientPeer>, k: K, peer: ClientPeer)
    ensures Names(m[k := peer]) == Names(m)[k := peer.conn]
  {
  }

  lemma NamesDrop<K(!new)>(m: map<K, ClientPeer>, k: K, peer: ClientPeer, known: set<ClientPeer>)
    requires OwnConnections(known) && peer in known && m.Values <= known
    ensures DropOwn(Names(m), k, peer.conn) == Names(if k in m && m[k] == peer then m - {k} else m)
  {
    if k in m {
      assert m[k] in m.Values;
    }
  }

  class PeerRegistry {
    var conns: map<nat, ClientPeer>
    var ips: map<string, ClientPeer>
    var ids: map<string, ClientPeer>

    /** The peers ever added; each belongs to a connection of its own. */
    ghost var known: set<ClientPeer>

    ghost predicate Valid()
      reads this
    {
      && conns.Values <= known && ips.Values <= known && ids.Values <= known
      && OwnConnections(known)
    }

    ghost function View(): Maps
      reads this
    {
      Maps(Names(conns), Names(ips), Names(ids))
    }

    constructor ()
      ensures Valid() && View() == NO_PEERS && known == {}
    {
      conns, ips, ids, known := map[], map[], map[], {};
    }

    method AddPeer(peer: ClientPeer)
      requires Valid() && forall q :: q in known ==> q.conn != peer.conn
      modifies this
      ensures Valid() && View() == AddConn(old(View()), peer.conn)
      ensures known == old(known) + {peer}
    {
      hide Names;
      NamesPut(conns, peer.conn, peer);
      conns := conns[peer.conn := peer];
      known := known + {peer};
    }

    /** Binds an address and the peer's identity to the peer, and returns whom the address led to
        before. */
    method Bind(peer: ClientPeer, ip: string) returns (previous: ClientPeer?)
      requires Valid() && peer in known
      modifies this, peer`virtualIP
      ensures Valid() && known == old(known)
      ensures View() == BindIP(old(View()), peer.conn, peer.id, ip)
      ensures peer.virtualIP == ip
      ensures previous == null <==> ip !in old(View()).ips
      ensures previous != null ==> previous in known && previous.conn == old(View()).ips[ip]
    {
      NamesPut(ips, ip, peer);
      NamesPut(ids, peer.id, peer);
      previous := if ip in ips then ips[ip] else null;
      peer.virtualIP := ip;
      ips := ips[ip := peer];
      if peer.id != "" {
        ids := ids[peer.id := peer];
      }
    }

    method RemovePeer(peer: ClientPeer)
      requires Valid() && peer in known
      modifies this
      ensures Valid() && known == old(known)
      ensures View() == Remove(old(View()), peer.conn, peer.id, peer.virtualIP)
    {
      hide Names;
      NamesDrop(conns, peer.conn, peer, known);
      NamesDrop(ips, peer.virtualIP, peer, known);
      NamesDrop(ids, peer.id, peer, known);
      if peer.conn in conns && conns[peer.conn] == peer {
        conns := conns - {peer.conn};
      }
      if peer.virtualIP != "" && peer.virtualIP in ips && ips[peer.virtualIP] == peer {
        ips := ips - {peer.virtualIP};
      }
      if peer.id != "" && peer.id in ids && ids[peer.id] == peer {
        ids := ids - {peer.id};
      }
    }

    method ByIP(ip: string) returns (peer: ClientPeer?)
      requires Valid()
      ensures peer == null <==> ip !in View().ips
      ensures peer != null ==> peer in known && peer.conn == View().ips[ip]
    {
      return if ip in ips then ips[ip] else null;
    }

    method ByConn(conn: nat) returns (peer: ClientPeer?)
      requires Valid()
      ensures peer == null <==> conn !in View().conns
      ensures peer != null ==> peer in known && peer.conn == View().conns[conn]
    {
      return if conn in conns then conns[conn] else null;
    }
  }
}
