/** What the peer registry keeps over whole runs of its operations. */
module RegistryRuns {
  import opened Bytes
  import opened Registry

  datatype PeerInfo = PeerInfo(id: string, ip: string)

  datatype World = World(maps: Maps, peers: map<nat, PeerInfo>, removed: set<nat>)

  datatype Op =
    | ConnectOp(c: nat)
    | IdentifyOp(c: nat, id: string)
    | BindOp(c: nat, ip: string)
    | RemoveOp(c: nat)

  /** A connection is new when it connects, and is used no more once it is removed. */
  function Apply(w: World, op: Op): World {
    match op
    case ConnectOp(c) =>
      if c in w.peers then w
      else w.(maps := AddConn(w.maps, c), peers := w.peers[c := PeerInfo("", "")])
    case IdentifyOp(c, id) =>
      if c !in w.peers || c in w.removed || (w.peers[c].id != "" && w.peers[c].id != id) then w
      else w.(peers := w.peers[c := w.peers[c].(id := id)])
    case BindOp(c, ip) =>
      if c !in w.peers || c in w.removed then w
      else w.(maps := BindIP(w.maps, c, w.peers[c].id, ip), peers := w.peers[c := w.peers[c].(ip := ip)])
    case RemoveOp(c) =>
      if c !in w.peers then w
      else w.(maps := Remove(w.maps, c, w.peers[c].id, w.peers[c].ip), removed := w.removed + {c})
  }

  function Run(ops: seq<Op>): World {
    if ops == [] then World(NO_PEERS, map[], {}) else Apply(Run(ops[..|ops| - 1]), ops[|ops| - 1])
  }

  /** Whom an operation leaves as the last peer that an address was bound to. */
  function Rebound(w: World, op: Op, ip: string, last: Option<nat>): Option<nat> {
    if op.BindOp? && op.ip == ip && op.c in w.peers && op.c !in w.removed then Some(op.c) else last
  }

  /** The peer that an address was last bound to in a run, whatever became of the peer. */
  function LastBinder(ops: seq<Op>, ip: string): Option<nat> {
    if ops == [] then None
    else
      var before := ops[..|ops| - 1];
      Rebound(Run(before), ops[|ops| - 1], ip, LastBinder(before, ip))
  }

  /** The connection and identity maps agree with the peers that have not been removed. */
  ghost predicate Tidy(w: World) {
    && w.removed <= w.peers.Keys
    && (forall k :: k in w.maps.conns <==> k in w.peers && k !in w.removed)
    && (forall k :: k in w.maps.conns ==> w.maps.conns[k] == k)
    && (forall id :: id in w.maps.ids ==>
          var c := w.maps.ids[id];
          id != "" && c in w.peers && c !in w.removed && w.peers[c].id == id)
  }

  lemma ApplyKeepsTidy(w: World, op: Op)
    requires Tidy(w)
    ensures Tidy(Apply(w, op))
  {
  }

  /** An address leads to the peer that it was last bound to, unless that peer has been removed with
      the address as its own. */
  predicate AccountedAt(w: World, ip: string, last: Option<nat>) {
    match last
    case None => ip !in w.maps.ips
    case Some(c) =>
      && c in w.peers
      && if c in w.removed && ip != "" && w.peers[c].ip == ip then ip !in w.maps.ips
         else ip in w.maps.ips && w.maps.ips[ip] == c
  }

  lemma ApplyKeepsAccount(w: World, op: Op, ip: string, last: Option<nat>)
    requires AccountedAt(w, ip, last)
    ensures AccountedAt(Apply(w, op), ip, Rebound(w, op, ip, last))
  {
  }

  /** Whom an operation leaves as the last peer that was bound under an identity. */
  function Reidentified(w: World, op: Op, id: string, last: Option<nat>): Option<nat> {
    if op.BindOp? && op.c in w.peers && op.c !in w.removed && id != "" && w.peers[op.c].id == id then Some(op.c) else last
  }

  function LastUnder(ops: seq<Op>, id: string): Option<nat> {
    if ops == [] then None
    else
      var before := ops[..|ops| - 1];
      Reidentified(Run(before), ops[|ops| - 1], id, LastUnder(before, id))
  }

  /** An identity leads to the peer last bound under it, until that peer is removed. */
  predicate IdentityAt(w: World, id: string, last: Option<nat>) {
    match last
    case None => id !in w.maps.ids
    case Some(c) =>
      && c in w.peers && w.peers[c].id == id && id != ""
      && if c in w.removed then id !in w.maps.ids else id in w.maps.ids && w.maps.ids[id] == c
  }

  lemma ApplyKeepsIdentity(w: World, op: Op, id: string, last: Option<nat>)
    requires IdentityAt(w, id, last)
    ensures IdentityAt(Apply(w, op), id, Reidentified(w, op, id, last))
  {
  }

  /** Over every run, each identity leads to the peer last bound under it, until that is removed. */
  lemma {:induction false} IdentitiesLead(ops: seq<Op>, id: string)
    ensures IdentityAt(Run(ops), id, LastUnder(ops, id))
  {
    if ops != [] {
      var before, last := ops[..|ops| - 1], ops[|ops| - 1];
      IdentitiesLead(before, id);
      hide IdentityAt, Apply, Reidentified;
      ApplyKeepsIdentity(Run(before), last, id, LastUnder(before, id));
    }
  }

  lemma {:induction false} RunKeeps(ops: seq<Op>)
    ensures Tidy(Run(ops))
    ensures forall ip :: AccountedAt(Run(ops), ip, LastBinder(ops, ip))
  {
    if ops != [] {
      var before, last := ops[..|ops| - 1], ops[|ops| - 1];
      RunKeeps(before);
      hide Tidy, AccountedAt, Apply, Rebound;
      ApplyKeepsTidy(Run(before), last);
      forall ip ensures AccountedAt(Run(ops), ip, LastBinder(ops, ip)) {
        ApplyKeepsAccount(Run(before), last, ip, LastBinder(before, ip));
      }
    }
  }

  function AddressOf(w: World, c: nat): string {
    if c in w.peers then w.peers[c].ip else ""
  }

  /** The exact account: after any run, a removed peer is still reachable iff some address that it
      was the last one bound to is not the address that it had in the end. (The empty address,
      which removal passes over, would stay as well.) */
  lemma ReachableExactly(ops: seq<Op>, c: nat)
    requires c in Run(ops).removed
    ensures Reachable(Run(ops).maps, c) <==>
            exists ip :: LastBinder(ops, ip) == Some(c) && (ip == "" || ip != AddressOf(Run(ops), c))
  {
    RunKeeps(ops);
    var w := Run(ops);
    if Reachable(w.maps, c) {
      var ip :| ip in w.maps.ips && w.maps.ips[ip] == c;
      assert AccountedAt(w, ip, LastBinder(ops, ip));
      assert LastBinder(ops, ip) == Some(c);
      assert ip == "" || ip != AddressOf(w, c);
    } else {
      forall ip | LastBinder(ops, ip) == Some(c) ensures ip != "" && ip == AddressOf(w, c) {
        assert AccountedAt(w, ip, LastBinder(ops, ip));
      }
    }
  }

  /** Each peer is bound to one nonempty address at most. */
  ghost predicate OneAddressEach(ops: seq<Op>) {
    forall i :: 0 <= i < |ops| && ops[i].BindOp? ==>
      var w := Run(ops[..i]);
      ops[i].ip != "" && (ops[i].c in w.peers ==> w.peers[ops[i].c].ip == "" || w.peers[ops[i].c].ip == ops[i].ip)
  }

  lemma {:induction false} LastBinderIsOwn(ops: seq<Op>, ip: string)
    requires OneAddressEach(ops)
    ensures match LastBinder(ops, ip)
            case None => true
            case Some(c) => ip != "" && c in Run(ops).peers && Run(ops).peers[c].ip == ip
  {
    if ops != [] {
      var before, last := ops[..|ops| - 1], ops[|ops| - 1];
      assert forall i :: 0 <= i < |before| ==> ops[..i] == before[..i] && ops[i] == before[i];
      LastBinderIsOwn(before, ip);
    }
  }

  /** In particular, if each peer is bound to one address, a removed peer is reachable through none
      of the three maps. */
  lemma RemovedIsUnreachable(ops: seq<Op>, c: nat)
    requires OneAddressEach(ops) && c in Run(ops).removed
    ensures !Reachable(Run(ops).maps, c)
  {
    hide Reachable, LastBinder, OneAddressEach, Run;
    ReachableExactly(ops, c);
    forall ip | LastBinder(ops, ip) == Some(c) ensures ip != "" && ip == AddressOf(Run(ops), c) {
      LastBinderIsOwn(ops, ip);
    }
  }

  /** Without that condition it fails: a peer bound to two addresses leaves the first behind. */
  lemma StaleAddress(ip1: string, ip2: string)
    requires ip1 != "" && ip2 != "" && ip1 != ip2
    ensures var w := Run([ConnectOp(1), IdentifyOp(1, "A"), BindOp(1, ip1), BindOp(1, ip2), RemoveOp(1)]);
            1 in w.removed && ip1 in w.maps.ips && w.maps.ips[ip1] == 1
  {
    var ops := [ConnectOp(1), IdentifyOp(1, "A"), BindOp(1, ip1), BindOp(1, ip2), RemoveOp(1)];
    RunStep(ops, 0);
    RunStep(ops, 1);
    RunStep(ops, 2);
    RunStep(ops, 3);
    RunStep(ops, 4);
    assert ops[..0] == [] && ops[..5] == ops;
    var w := Run(ops[..4]);
    assert w.maps.ips[ip1] == 1 && w.peers[1].ip == ip2;
  }

  lemma RunStep(ops: seq<Op>, k: nat)
    requires k < |ops|
    ensures Run(ops[..k + 1]) == Apply(Run(ops[..k]), ops[k])
  {
    assert ops[..k + 1][..k] == ops[..k];
  }
}
