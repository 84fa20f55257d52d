/** The DHCP lease manager: the allocator as an object with mutable maps of lease objects. */
module LeaseManager {
  import opened Bytes
  import opened Ipv4
  import opened LeasePool
  import opened Subnet

  class Lease {
    var clientID: string
    var ip: string
    var createdAt: int
    var updatedAt: int
    var expiresAt: int
    var online: bool

    function Rec(): LeaseRec
      reads this
    {
      LeaseRec(clientID, ip, createdAt, updatedAt, expiresAt, online)
    }

    constructor (rec: LeaseRec)
      ensures Rec() == rec
    {
      clientID := rec.clientID;
      ip := rec.ip;
      createdAt := rec.createdAt;
      updatedAt := rec.updatedAt;
      expiresAt := rec.expiresAt;
      online := rec.online;
    }
  }

  /** A DNS text, trimmed: nothing, not an IPv4 address, or one. */
  datatype DNSText = Blank | NoAddress | Address(ip: u32)

  /** The configuration, with its addresses already parsed; None stands for a text that is not an
      IPv4 address. */
  datatype ManagerConfig = ManagerConfig(
    startIP: Option<u32>,
    endIP: Option<u32>,
    subnetMask: Option<u32>,
    gateway: Option<u32>,
    dns: seq<DNSText>,
    leaseTTL: int,
    offlineGrace: int)

  datatype ConfigError = BadRange | BadGateway | BadMask | BadDNS | StartAfterEnd

  const DEFAULT_LEASE_TTL: int := 24 * 60 * 60 * 1_000_000_000
  const DEFAULT_OFFLINE_GRACE: int := 5 * 60 * 1_000_000_000

  function WithoutBlanks(dns: seq<DNSText>): (r: seq<DNSText>)
    ensures |r| <= |dns|
    ensures forall d :: d in r <==> d in dns && d != Blank
  {
    if dns == [] then []
    else if dns[0].Blank? then WithoutBlanks(dns[1..])
    else [dns[0]] + WithoutBlanks(dns[1..])
  }

  lemma {:induction false} WithoutBlanksAppend(dns: seq<DNSText>, d: DNSText)
    ensures WithoutBlanks(dns + [d]) == WithoutBlanks(dns) + (if d.Blank? then [] else [d])
  {
    if dns != [] {
      WithoutBlanksAppend(dns[1..], d);
      assert (dns + [d])[1..] == dns[1..] + [d];
    }
  }

  method NormalizeDNSServers(dns: seq<DNSText>) returns (out: seq<DNSText>)
    ensures out == WithoutBlanks(dns)
  {
    out := [];
    for i := 0 to |dns|
      invariant out == WithoutBlanks(dns[..i])
    {
      WithoutBlanksAppend(dns[..i], dns[i]);
      assert dns[..i + 1] == dns[..i] + [dns[i]];
      if dns[i].Blank? {
        continue;
      }
      out := out + [dns[i]];
    }
    assert dns[..|dns|] == dns;
  }

  /** What is wrong with a configuration, if anything. */
  function ConfigProblem(cfg: ManagerConfig): Option<ConfigError> {
    if cfg.startIP.None? || cfg.endIP.None? then Some(BadRange)
    else if cfg.gateway.None? then Some(BadGateway)
    else if cfg.subnetMask.None? then Some(BadMask)
    else if WithoutBlanks(cfg.dns) == [] || NoAddress in cfg.dns then Some(BadDNS)
    else if cfg.startIP.value > cfg.endIP.value then Some(StartAfterEnd)
    else None
  }

  function InitialPool(cfg: ManagerConfig): Pool
    requires ConfigProblem(cfg).None?
  {
    Pool(cfg.startIP.value, cfg.endIP.value, cfg.startIP.value, map[], map[], {Text(cfg.gateway.value)},
         if cfg.leaseTTL <= 0 then DEFAULT_LEASE_TTL else cfg.leaseTTL,
         if cfg.offlineGrace <= 0 then DEFAULT_OFFLINE_GRACE else cfg.offlineGrace)
  }

  class Manager {
    const start: u32
    const end: u32
    const leaseTTL: int
    const offlineGrace: int
    const reserved: set<string>
    var next: u32
    var leaseByID: map<string, Lease>
    var ownerByIP: map<string, string>

    ghost function View(): Pool
      reads this, leaseByID.Values
    {
      Pool(start, end, next, map id | id in leaseByID :: leaseByID[id].Rec(), ownerByIP, reserved,
           leaseTTL, offlineGrace)
    }

    ghost predicate Valid()
      reads this, leaseByID.Values
    {
      Inv(View())
    }

    constructor (cfg: ManagerConfig)
      requires ConfigProblem(cfg).None?
      ensures Valid() && View() == InitialPool(cfg)
      ensures start == next == cfg.startIP.value && end == cfg.endIP.value && leaseByID == map[] && ownerByIP == map[]
      ensures reserved == {Text(cfg.gateway.value)}
      ensures leaseTTL == (if cfg.leaseTTL > 0 then cfg.leaseTTL else 86_400_000_000_000)
      ensures offlineGrace == (if cfg.offlineGrace > 0 then cfg.offlineGrace else 300_000_000_000)
    {
      start := cfg.startIP.value;
      end := cfg.endIP.value;
      next := cfg.startIP.value;
      leaseTTL := if cfg.leaseTTL <= 0 then DEFAULT_LEASE_TTL else cfg.leaseTTL;
      offlineGrace := if cfg.offlineGrace <= 0 then DEFAULT_OFFLINE_GRACE else cfg.offlineGrace;
      reserved := {Text(cfg.gateway.value)};
      leaseByID := map[];
      ownerByIP := map[];
    }

    method ReleaseLocked(id: string)
      requires Valid()
      modifies this
      ensures Valid() && View() == LeasePool.Release(old(View()), id)
      ensures leaseByID == old(leaseByID) - {id}
    {
      hide Text, Inv;
      RemoveAllKeeps(View(), {id});
      ReleaseFreesAddress(View(), id);
      if id !in leaseByID {
        assert id !in View().leases && leaseByID - {id} == leaseByID;
        return;
      }
      var lease := leaseByID[id];
      assert lease.Rec() == View().leases[id];
      leaseByID := leaseByID - {id};
      ownerByIP := ownerByIP - {lease.ip};
      assert View().leases == old(View()).leases - {id};
    }

    /** Visits the leases in whatever order the map yields them, deleting while it goes. */
    method SweepExpiredLocked(now: int)
      requires Valid()
      modifies this
      ensures Valid() && View() == Sweep(old(View()), now)
      ensures leaseByID == old(leaseByID) - Expired(old(View()), now)
    {
      hide Text, Inv;
      ghost var before, expired := View(), Expired(View(), now);
      var pending := leaseByID.Keys;
      ghost var removed: set<string> := {};
      RemoveAllNone(before);
      while pending != {}
        invariant Valid() && pending <= before.leases.Keys && pending !! removed
        invariant View() == RemoveAll(before, removed)
        invariant leaseByID == old(leaseByID) - removed
        invariant removed <= expired <= removed + pending
        decreases pending
      {
        var id :| id in pending;
        pending := pending - {id};
        var lease := leaseByID[id];
        assert lease.Rec() == before.leases[id];
        if !lease.online && now > lease.expiresAt {
          ReleaseLocked(id);
          RemoveAllTwice(before, removed, {id});
          removed := removed + {id};
        }
      }
      assert removed == expired;
    }

    method AdvanceNextLocked()
      requires start <= next <= end
      modifies `next
      ensures next == Advance(start, end, old(next))
    {
      if next >= end {
        next := start;
        return;
      }
      next := next + 1;
    }

    /** Scans the pool once around from the cursor; None when every address is taken. */
    method AllocateIPLocked() returns (ip: Option<string>)
      requires Valid()
      modifies `next
      ensures match ScanFrom(old(View()), 0)
              case None => ip == None && View() == old(View())
              case Some(k) =>
                && ip == Some(Text(At(old(View()), k)))
                && View() == old(View()).(next := At(old(View()), k + 1))
    {
      hide Text, InPool;
      ghost var before := View();
      var poolSize: u64 := end - start + 1;
      var scanned: u64 := 0;
      AtZero(before);
      while scanned < poolSize
        invariant scanned <= poolSize == Size(before)
        invariant View() == before.(next := At(before, scanned))
        invariant ScanFrom(before, 0) == ScanFrom(before, scanned)
      {
        var u := next;
        AtStep(before, scanned);
        AdvanceNextLocked();
        var text := Text(u);
        scanned := scanned + 1;
        if text in reserved {
          continue;
        }
        if text in ownerByIP {
          continue;
        }
        return Some(text);
      }
      return None;
    }

    /** The branch of Acquire for a client that still has its lease. */
    method RenewLocked(clientID: string, now: int) returns (clone: Lease)
      requires Valid() && clientID in leaseByID
      modifies leaseByID.Values
      ensures View() == old(View()).(leases := old(View()).leases[
                          clientID := Renewed(old(View()).leases[clientID], now, leaseTTL)])
      ensures fresh(clone) && clone !in leaseByID.Values && clone.Rec() == View().leases[clientID]
    {
      hide Text, Inv;
      ghost var before := View();
      OwnLeases(before);
      var lease := leaseByID[clientID];
      assert lease.Rec() == before.leases[clientID];
      lease.online := true;
      lease.updatedAt := now;
      lease.expiresAt := now + leaseTTL;
      assert View().leases == before.leases[clientID := Renewed(before.leases[clientID], now, leaseTTL)];
      clone := new Lease(lease.Rec());
    }

    /** The branch of Acquire that makes a lease for a newly allocated address. */
    method GrantLocked(clientID: string, ip: string, now: int) returns (clone: Lease)
      modifies this
      ensures View() == old(View()).(
                leases := old(View()).leases[clientID := NewLease(clientID, ip, now, leaseTTL)],
                owners := old(View()).owners[ip := clientID])
      ensures fresh(clone) && clone !in leaseByID.Values && clone.Rec() == View().leases[clientID]
      ensures fresh(leaseByID.Values - old(leaseByID.Values))
    {
      ghost var before := View();
      var lease := new Lease(NewLease(clientID, ip, now, leaseTTL));
      leaseByID := leaseByID[clientID := lease];
      ownerByIP := ownerByIP[ip := clientID];
      assert View().leases == before.leases[clientID := NewLease(clientID, ip, now, leaseTTL)];
      clone := new Lease(lease.Rec());
    }

    /** The returned lease is a fresh copy: writing to it cannot reach the manager's own. */
    method Acquire(clientID: string, now: int) returns (r: Result<Lease, AcquireError>)
      requires Valid()
      modifies this, leaseByID.Values
      ensures Valid()
      ensures var (after, result) := LeasePool.Acquire(old(View()), clientID, now);
              && View() == after
              && (result.Err? ==> r == Err(result.error))
              && (result.Ok? ==> r.Ok? && r.value.Rec() == result.value
                                 && fresh(r.value) && r.value !in leaseByID.Values)
      ensures fresh(leaseByID.Values - old(leaseByID.Values))
    {
      hide Text, Inv, ScanFrom, At;
      ApplyKeeps(View(), AcquireOp(clientID, now));
      if clientID == "" {
        return Err(EmptyClientID);
      }
      SweepExpiredLocked(now);
      if clientID in leaseByID {
        assert clientID in View().leases;
        var clone := RenewLocked(clientID, now);
        return Ok(clone);
      }
      assert clientID !in View().leases;
      var ip := AllocateIPLocked();
      if ip.None? {
        return Err(PoolExhausted);
      }
      var clone := GrantLocked(clientID, ip.value, now);
      return Ok(clone);
    }

    method MarkOffline(clientID: string, now: int)
      requires Valid()
      modifies leaseByID.Values
      ensures Valid() && View() == LeasePool.MarkOffline(old(View()), clientID, now)
    {
      hide Text, Inv;
      ghost var before := View();
      ApplyKeeps(before, MarkOfflineOp(clientID, now));
      if clientID !in leaseByID {
        assert clientID !in before.leases;
        return;
      }
      var lease := leaseByID[clientID];
      assert lease.Rec() == before.leases[clientID];
      OwnLeases(before);
      lease.online := false;
      lease.updatedAt := now;
      lease.expiresAt := now + offlineGrace;
      assert View().leases == LeasePool.MarkOffline(before, clientID, now).leases;
    }

    method Release(clientID: string)
      requires Valid()
      modifies this
      ensures Valid() && View() == LeasePool.Release(old(View()), clientID)
    {
      ReleaseLocked(clientID);
    }

    method SweepExpired(now: int)
      requires Valid()
      modifies this
      ensures Valid() && View() == Sweep(old(View()), now)
    {
      SweepExpiredLocked(now);
    }

    /** Every lease once, in the order the map yields them, each as a fresh copy. */
    method Snapshot() returns (leases: seq<Lease>)
      requires Valid()
      ensures forall i :: 0 <= i < |leases| ==>
                && fresh(leases[i]) && leases[i] !in leaseByID.Values
                && leases[i].clientID in View().leases
                && leases[i].Rec() == View().leases[leases[i].clientID]
      ensures forall i, j :: 0 <= i < j < |leases| ==> leases[i].clientID != leases[j].clientID
      ensures |leases| == |leaseByID|
    {
      hide Text, Inv;
      OwnLeases(View());
      leases := [];
      var pending := leaseByID.Keys;
      while pending != {}
        invariant pending <= leaseByID.Keys && |leases| + |pending| == |leaseByID|
        invariant forall i :: 0 <= i < |leases| ==>
                    && fresh(leases[i]) && leases[i] !in leaseByID.Values
                    && leases[i].clientID in leaseByID && leases[i].clientID !in pending
                    && leases[i].Rec() == leaseByID[leases[i].clientID].Rec()
        invariant forall i, j :: 0 <= i < j < |leases| ==> leases[i].clientID != leases[j].clientID
        decreases pending
      {
        var id :| id in pending;
        pending := pending - {id};
        var lease := leaseByID[id];
        assert lease.Rec() == View().leases[id];
        var clone := new Lease(lease.Rec());
        leases := leases + [clone];
      }
    }
  }

  /** Makes a manager, or tells what is wrong with the configuration. */
  method NewManager(cfg: ManagerConfig) returns (r: Result<Manager, ConfigError>)
    ensures r.Err? ==> ConfigProblem(cfg) == Some(r.error)
    ensures r.Ok? ==> ConfigProblem(cfg).None? && fresh(r.value) && r.value.Valid() && r.value.View() == InitialPool(cfg)
  {
    if cfg.startIP.None? || cfg.endIP.None? {
      return Err(BadRange);
    }
    if cfg.gateway.None? {
      return Err(BadGateway);
    }
    if cfg.subnetMask.None? {
      return Err(BadMask);
    }
    var dns := NormalizeDNSServers(cfg.dns);
    if |dns| == 0 {
      return Err(BadDNS);
    }
    for i := 0 to |dns|
      invariant forall k :: 0 <= k < i ==> dns[k].Address?
    {
      if !dns[i].Address? {
        assert dns[i] in cfg.dns;
        return Err(BadDNS);
      }
    }
    assert NoAddress !in dns;
    if cfg.startIP.value > cfg.endIP.value {
      return Err(StartAfterEnd);
    }
    var manager := new Manager(cfg);
    return Ok(manager);
  }

  /** Each lease names the client it is filed under, so distinct clients have distinct leases. */
  lemma OwnLeases(p: Pool)
    requires Inv(p)
    ensures forall id :: id in p.leases ==> p.leases[id].clientID == id
  {
    hide Text, InPool;
  }

  /* ------------------------------ the server's configuration check ------------------------------ */

  /** What the server's configuration loader checks. */
  predicate ValidatedVDHCP(cfg: ManagerConfig) {
    && cfg.startIP.Some? && cfg.endIP.Some? && cfg.gateway.Some?
    && cfg.dns != [] && (forall i :: 0 <= i < |cfg.dns| ==> cfg.dns[i].Address?)
    && cfg.startIP.value <= cfg.endIP.value
    && cfg.subnetMask.Some? && MaskToPrefix(Some(ToBytes(cfg.subnetMask.value))).Some?
  }

  /** The manager lacks only one of the loader's checks: that the mask is ones followed by zeros.
      So a configuration that the loader lets through always makes a manager, whose pool starts out
      valid; and the loader lets through every configuration without blank DNS texts that makes a
      manager and whose mask is one of the 33 with a prefix. */
  lemma ValidatedConfigBuilds(cfg: ManagerConfig)
    ensures ValidatedVDHCP(cfg) ==> ConfigProblem(cfg).None? && Inv(InitialPool(cfg))
    ensures ValidatedVDHCP(cfg) <==>
            && ConfigProblem(cfg).None? && Blank !in cfg.dns
            && exists p: nat :: p <= 32 && cfg.subnetMask.value == U32_LIMIT - BlockSize(p)
  {
    hide Text, MaskToPrefix, BlockSize, ToUint32, ToBytes;
    if cfg.subnetMask.Some? {
      var m := cfg.subnetMask.value;
      BytesRoundTrip(m, ToBytes(m));
      var prefix := MaskToPrefix(Some(ToBytes(m)));
      forall p: nat | p <= 32 ensures prefix == Some(p) <==> m == U32_LIMIT - BlockSize(p) {
        PrefixOfMask(ToBytes(m), p);
      }
      if prefix.Some? {
        PrefixBound(ToBytes(m), prefix.value);
      }
    }
    if cfg.dns != [] && Blank !in cfg.dns {
      assert cfg.dns[0] in WithoutBlanks(cfg.dns);
    }
    forall i | ConfigProblem(cfg).None? && Blank !in cfg.dns && 0 <= i < |cfg.dns| ensures cfg.dns[i].Address? {
      assert cfg.dns[i] in cfg.dns;
    }
  }
}
