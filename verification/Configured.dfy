/** What a lease manager does over whole runs, said of its configuration. */
module Configured {
  import opened Bytes
  import opened Ipv4
  import opened LeasePool
  import opened LeaseManager

  /** The lease times that a configuration stands for: 24 hours and 5 minutes in nanoseconds where it
      names none. */
  function LeaseTime(cfg: ManagerConfig): int {
    if cfg.leaseTTL > 0 then cfg.leaseTTL else 86_400_000_000_000
  }

  function GraceTime(cfg: ManagerConfig): int {
    if cfg.offlineGrace > 0 then cfg.offlineGrace else 300_000_000_000
  }

  /** The number of addresses of the configured range that clients can get. */
  function Addresses(cfg: ManagerConfig): int
    requires ConfigProblem(cfg).None?
  {
    cfg.endIP.value - cfg.startIP.value + 1
    - (if cfg.startIP.value <= cfg.gateway.value <= cfg.endIP.value then 1 else 0)
  }

  lemma StartsValid(cfg: ManagerConfig)
    requires ConfigProblem(cfg).None?
    ensures Inv(InitialPool(cfg)) && Ranged(InitialPool(cfg))
    ensures InitialPool(cfg).reserved == {Text(cfg.gateway.value)}
    ensures InitialPool(cfg).leases == map[] && InitialPool(cfg).owners == map[]
  {
  }

  /** In every run, every lease is for an address of the configured range, and none for the gateway's. */
  lemma LeasesInRange(cfg: ManagerConfig, ops: seq<Op>, id: string) returns (u: u32)
    requires ConfigProblem(cfg).None? && id in Run(InitialPool(cfg), ops).leases
    ensures cfg.startIP.value <= u <= cfg.endIP.value && u != cfg.gateway.value
    ensures Run(InitialPool(cfg), ops).leases[id].ip == Text(u)
  {
    hide Text;
    StartsValid(cfg);
    RunKeeps(InitialPool(cfg), ops);
    var p := Run(InitialPool(cfg), ops);
    var ip := p.leases[id].ip;
    assert InPool(p, ip) && ip !in p.reserved;
    u :| p.start <= u <= p.end && ip == Text(u);
  }

  /** After every run, acquiring for a client without a lease fails exactly when, after the sweep, there
      are as many leases as addresses for clients. */
  lemma FailsExactly(cfg: ManagerConfig, ops: seq<Op>, id: string, now: int)
    requires ConfigProblem(cfg).None? && id != "" && id !in Sweep(Run(InitialPool(cfg), ops), now).leases
    ensures var p := Run(InitialPool(cfg), ops);
            Acquire(p, id, now).1.Err? <==> |Sweep(p, now).leases| == Addresses(cfg)
  {
    hide Text, Inv, Acquire, Sweep, Run;
    StartsValid(cfg);
    RunKeeps(InitialPool(cfg), ops);
    AcquireFailsExactly(Run(InitialPool(cfg), ops), id, now, cfg.gateway.value);
  }

  /** The first client of a new manager gets the first address of the range that is not the gateway's;
      there is none only if the range is the gateway's address alone. */
  lemma FirstGrant(cfg: ManagerConfig, id: string, now: int)
    requires ConfigProblem(cfg).None? && id != ""
    ensures var result := Acquire(InitialPool(cfg), id, now).1;
            var first := if cfg.startIP.value == cfg.gateway.value then cfg.startIP.value + 1 else cfg.startIP.value;
            if first <= cfg.endIP.value then result.Ok? && result.value.ip == Text(first) else result == Err(PoolExhausted)
  {
    hide Text;
    StartsValid(cfg);
    var p := InitialPool(cfg);
    assert Expired(p, now) == {} && Sweep(p, now) == p;
    AtZero(p);
    AtStep(p, 0);
    if cfg.startIP.value != cfg.gateway.value {
      if Text(cfg.startIP.value) == Text(cfg.gateway.value) { TextInjective(cfg.startIP.value, cfg.gateway.value); }
      assert Free(p, At(p, 0));
    } else if cfg.startIP.value < cfg.endIP.value {
      assert At(p, 1) == cfg.startIP.value + 1;
      if Text(At(p, 1)) == Text(cfg.gateway.value) { TextInjective(At(p, 1), cfg.gateway.value); }
      assert !Free(p, At(p, 0)) && Free(p, At(p, 1));
    }
  }

  /* ------------------------------ what a lease says ------------------------------ */

  datatype Touch = Never | AcquiredAt(t: int) | OfflineAt(t: int)

  /** The last time that a run acquired a client's lease or marked it offline. */
  function LastTouch(ops: seq<Op>, id: string): Touch {
    if ops == [] then Never
    else
      match ops[|ops| - 1]
      case AcquireOp(x, t) => if x == id then AcquiredAt(t) else LastTouch(ops[..|ops| - 1], id)
      case MarkOfflineOp(x, t) => if x == id then OfflineAt(t) else LastTouch(ops[..|ops| - 1], id)
      case _ => LastTouch(ops[..|ops| - 1], id)
  }

  lemma {:induction false} RunLast(p: Pool, ops: seq<Op>, op: Op)
    requires Ranged(p)
    ensures Run(p, ops + [op]) == Apply(Run(p, ops), op)
    decreases ops
  {
    hide Apply, Ranged;
    if ops == [] {
      assert [op][1..] == [];
      assert ops + [op] == [op];
    } else {
      assert (ops + [op])[0] == ops[0] && (ops + [op])[1..] == ops[1..] + [op];
      RunLast(Apply(p, ops[0]), ops[1..], op);
    }
  }

  /** The lease is what the last touch made it. */
  predicate Says(lease: LeaseRec, touch: Touch, ttl: int, grace: int) {
    match touch
    case Never => false
    case AcquiredAt(t) => lease.online && lease.updatedAt == t && lease.expiresAt == t + ttl
    case OfflineAt(t) => !lease.online && lease.updatedAt == t && lease.expiresAt == t + grace
  }

  ghost predicate AllSay(p: Pool, ops: seq<Op>, ttl: int, grace: int) {
    && p.leaseTTL == ttl && p.offlineGrace == grace
    && forall id :: id in p.leases ==> Says(p.leases[id], LastTouch(ops, id), ttl, grace)
  }

  lemma NoEmptyID(p: Pool)
    requires Inv(p)
    ensures "" !in p.leases
  {
  }

  /** What an operation leaves of a lease that it is not about, and where the ones come from that it is
      about. */
  lemma Untouched(p: Pool, op: Op, id: string)
    requires Inv(p) && id in Apply(p, op).leases
    ensures match op
            case AcquireOp(x, t) =>
              if x == id then Says(Apply(p, op).leases[id], AcquiredAt(t), p.leaseTTL, p.offlineGrace)
              else id in p.leases && Apply(p, op).leases[id] == p.leases[id]
            case MarkOfflineOp(x, t) =>
              if x == id then Says(Apply(p, op).leases[id], OfflineAt(t), p.leaseTTL, p.offlineGrace)
              else id in p.leases && Apply(p, op).leases[id] == p.leases[id]
            case _ => id in p.leases && Apply(p, op).leases[id] == p.leases[id]
  {
    if op.AcquireOp? {
      AcquireTouches(p, op.id, op.now, id);
    } else {
      hide Text, Inv, Acquire;
    }
  }

  lemma AcquireTouches(p: Pool, x: string, now: int, id: string)
    requires Inv(p) && id in Acquire(p, x, now).0.leases
    ensures if x == id then Says(Acquire(p, x, now).0.leases[id], AcquiredAt(now), p.leaseTTL, p.offlineGrace)
            else id in p.leases && Acquire(p, x, now).0.leases[id] == p.leases[id]
  {
    NoEmptyID(p);
    if Acquire(p, x, now).1.Ok? {
      AcquireGives(p, x, now);
      hide Text, Inv, Acquire;
    } else {
      hide Text, Inv;
    }
  }

  lemma SameTimes(p: Pool, op: Op)
    requires Ranged(p)
    ensures Apply(p, op).leaseTTL == p.leaseTTL && Apply(p, op).offlineGrace == p.offlineGrace
  {
    hide Text, Ranged;
  }

  lemma ApplySays(p: Pool, ops: seq<Op>, op: Op, ttl: int, grace: int)
    requires Inv(p) && Ranged(p) && AllSay(p, ops, ttl, grace)
    ensures AllSay(Apply(p, op), ops + [op], ttl, grace)
  {
    hide Text, Inv, Apply, Says;
    var q := Apply(p, op);
    assert (ops + [op])[..|ops|] == ops;
    SameTimes(p, op);
    forall id | id in q.leases ensures Says(q.leases[id], LastTouch(ops + [op], id), ttl, grace) {
      Untouched(p, op, id);
      if id in p.leases {
        assert Says(p.leases[id], LastTouch(ops, id), ttl, grace);
      }
    }
  }

  lemma {:induction false} RunSays(cfg: ManagerConfig, ops: seq<Op>)
    requires ConfigProblem(cfg).None?
    ensures Inv(InitialPool(cfg)) && AllSay(Run(InitialPool(cfg), ops), ops, LeaseTime(cfg), GraceTime(cfg))
  {
    StartsValid(cfg);
    if ops != [] {
      var before, last := ops[..|ops| - 1], ops[|ops| - 1];
      RunSays(cfg, before);
      hide Inv, AllSay, Apply, InitialPool;
      RunKeeps(InitialPool(cfg), before);
      ApplySays(Run(InitialPool(cfg), before), before, last, LeaseTime(cfg), GraceTime(cfg));
      RunLast(InitialPool(cfg), before, last);
      assert before + [last] == ops;
    }
  }

  /** In every run a client's lease is online exactly if its last touch was an acquire, and runs the
      configured time from that touch: the lease time if it is online, the grace time if not. A sweep
      takes it away exactly if it is offline and the grace time is over. */
  lemma LeaseRunsItsTime(cfg: ManagerConfig, ops: seq<Op>, id: string, now: int)
    requires ConfigProblem(cfg).None? && id in Run(InitialPool(cfg), ops).leases
    ensures var p := Run(InitialPool(cfg), ops);
            match LastTouch(ops, id)
            case Never => false
            case AcquiredAt(t) =>
              && p.leases[id].online && p.leases[id].expiresAt == t + LeaseTime(cfg) && p.leases[id].updatedAt == t
              && id in Sweep(p, now).leases
            case OfflineAt(t) =>
              && !p.leases[id].online && p.leases[id].expiresAt == t + GraceTime(cfg) && p.leases[id].updatedAt == t
              && (id in Sweep(p, now).leases <==> now <= t + GraceTime(cfg))
  {
    RunSays(cfg, ops);
    var p := Run(InitialPool(cfg), ops);
    assert Says(p.leases[id], LastTouch(ops, id), LeaseTime(cfg), GraceTime(cfg));
    hide Run, Inv, AllSay;
  }

  /** Nobody acquires without an identity. */
  lemma EmptyIDRefused(p: Pool, now: int)
    requires Ranged(p)
    ensures Acquire(p, "", now) == (p, Err(EmptyClientID))
  {
  }

  /** What acquiring gives: the client's own lease, online, running the lease time from now; made now if
      the client had none after the sweep, else with the address and the making time that it had. */
  lemma AcquireGives(p: Pool, id: string, now: int)
    requires Inv(p) && Acquire(p, id, now).1.Ok?
    ensures var (after, result) := Acquire(p, id, now);
            && id in after.leases && result.value == after.leases[id]
            && result.value.clientID == id && result.value.online
            && result.value.updatedAt == now && result.value.expiresAt == now + p.leaseTTL
            && (if id in Sweep(p, now).leases
                then result.value.ip == p.leases[id].ip && result.value.createdAt == p.leases[id].createdAt
                else result.value.createdAt == now)
            && (forall x :: x != id ==>
                  (x in after.leases <==> x in Sweep(p, now).leases) && (x in after.leases ==> after.leases[x] == p.leases[x]))
  {
    hide Text;
  }
}
