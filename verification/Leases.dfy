/** The lease allocator: its abstract state, its operations, and their laws. */
module LeasePool {
  import opened Bytes
  import opened Ipv4

  datatype LeaseRec = LeaseRec(
    clientID: string,
    ip: string,
    createdAt: int,
    updatedAt: int,
    expiresAt: int,
    online: bool)

  datatype Pool = Pool(
    start: u32,
    end: u32,
    next: u32,
    leases: map<string, LeaseRec>,
    owners: map<string, string>,
    reserved: set<string>,
    leaseTTL: int,
    offlineGrace: int)

  datatype AcquireError = EmptyClientID | PoolExhausted

  /* ------------------------------ the pool as a cycle ------------------------------ */

  predicate Ranged(p: Pool) {
    p.start <= p.next <= p.end
  }

  function Size(p: Pool): (n: nat)
    requires Ranged(p)
    ensures n > 0
  {
    p.end - p.start + 1
  }

  /** The address k steps of the cursor ahead. */
  function At(p: Pool, k: nat): (u: u32)
    requires Ranged(p)
    ensures p.start <= u <= p.end
  {
    p.start + (p.next - p.start + k) % Size(p)
  }

  function Advance(start: u32, end: u32, u: u32): u32
    requires u <= end
  {
    if u >= end then start else u + 1
  }

  lemma AtZero(p: Pool)
    requires Ranged(p)
    ensures At(p, 0) == p.next && At(p, Size(p)) == p.next
  {
    var n := Size(p);
    ModUnique(p.next - p.start, n, 0, p.next - p.start);
    ModUnique(p.next - p.start + n, n, 1, p.next - p.start);
  }

  lemma AtStep(p: Pool, k: nat)
    requires Ranged(p)
    ensures At(p, k + 1) == Advance(p.start, p.end, At(p, k))
  {
    var n, x := Size(p), p.next - p.start + k;
    NextRemainder(x, n);
    hide Size;
  }

  lemma NextRemainder(x: nat, n: nat)
    requires n > 0
    ensures (x + 1) % n == if x % n == n - 1 then 0 else x % n + 1
  {
    Successor(x, n, x / n, x % n);
  }

  lemma Successor(x: nat, n: nat, q: int, r: nat)
    requires r < n && x == n * q + r && q >= 0
    ensures (x + 1) % n == if r == n - 1 then 0 else r + 1
  {
    if r == n - 1 {
      Distribute(n, q, 1);
      ModUnique(x + 1, n, q + 1, 0);
    } else {
      ModUnique(x + 1, n, q, r + 1);
    }
  }

  /** Moving the cursor by j shifts the cycle by j. */
  lemma AtShift(p: Pool, j: nat, k: nat)
    requires Ranged(p)
    ensures At(p.(next := At(p, j)), k) == At(p, j + k)
  {
    ModAdd(p.next - p.start + j, k, Size(p));
  }

  lemma ModAdd(x: nat, k: nat, n: nat)
    requires n > 0
    ensures (x % n + k) % n == (x + k) % n
  {
    var y := x % n + k;
    ModSum(x + k, n, x / n, y / n, y % n);
  }

  lemma ModSum(x: nat, n: nat, q: nat, q2: nat, r: nat)
    requires n > 0 && r < n && x == n * q + (n * q2 + r)
    ensures x % n == r
  {
    Distribute(n, q, q2);
    ModUnique(x, n, q + q2, r);
  }

  lemma Distribute(n: int, a: int, b: int)
    ensures n * (a + b) == n * a + n * b
  {
  }

  /** Every pool address is one of any Size(p) consecutive ones. */
  lemma AtCovers(p: Pool, i: nat, u: u32) returns (k: nat)
    requires Ranged(p) && p.start <= u <= p.end
    ensures i <= k < i + Size(p) && At(p, k) == u
  {
    var step := StepTo(p.next - p.start + i, Size(p), u - p.start);
    k := i + step;
  }

  lemma StepTo(x: nat, n: nat, d: nat) returns (step: nat)
    requires d < n
    ensures step < n && (x + step) % n == d
  {
    var q, r := x / n, x % n;
    assert x == n * q + r;
    if d >= r {
      step := d - r;
      ModUnique(x + step, n, q, d);
    } else {
      step := d - r + n;
      Distribute(n, q, 1);
      ModUnique(x + step, n, q + 1, d);
    }
  }

  /** Two visits of one address are a whole cycle apart. */
  lemma AtRevisit(p: Pool, i: nat, j: nat)
    requires Ranged(p) && i < j && At(p, i) == At(p, j)
    ensures j - i >= Size(p)
  {
    var n := Size(p);
    var x, y := p.next - p.start + i, p.next - p.start + j;
    Apart(x, y, n);
  }

  lemma Apart(x: nat, y: nat, n: nat)
    requires n > 0 && x < y && x % n == y % n
    ensures y - x >= n
  {
    SameRemainder(x, y, n, x / n, y / n, x % n);
  }

  lemma SameRemainder(x: nat, y: nat, n: nat, a: int, b: int, r: nat)
    requires x < y && x == n * a + r && y == n * b + r
    ensures y - x >= n
  {
    if b <= a {
      MulMono(n, b, a);
    } else {
      MulMono(n, a + 1, b);
      Distribute(n, a, 1);
    }
  }

  /* ------------------------------ the invariant ------------------------------ */

  ghost predicate InPool(p: Pool, ip: string) {
    exists u: u32 :: p.start <= u <= p.end && ip == Text(u)
  }

  /** The two maps are inverse, and every leased address is a pool address that is not reserved. */
  ghost predicate Inv(p: Pool) {
    && Ranged(p)
    && (forall id :: id in p.leases ==>
          && id != "" && p.leases[id].clientID == id
          && p.leases[id].ip in p.owners && p.owners[p.leases[id].ip] == id)
    && (forall ip :: ip in p.owners ==>
          && p.owners[ip] in p.leases && p.leases[p.owners[ip]].ip == ip)
    && (forall ip :: ip in p.owners ==> InPool(p, ip) && ip !in p.reserved)
  }

  /* ------------------------------ the operations ------------------------------ */

  function RemoveAll(p: Pool, ids: set<string>): Pool {
    p.(leases := p.leases - ids,
       owners := map ip | ip in p.owners && p.owners[ip] !in ids :: p.owners[ip])
  }

  predicate IsExpired(lease: LeaseRec, now: int) {
    !lease.online && now > lease.expiresAt
  }

  function Expired(p: Pool, now: int): set<string> {
    set id | id in p.leases && IsExpired(p.leases[id], now)
  }

  function Sweep(p: Pool, now: int): Pool {
    RemoveAll(p, Expired(p, now))
  }

  function Release(p: Pool, id: string): Pool {
    RemoveAll(p, {id})
  }

  function MarkOffline(p: Pool, id: string, now: int): Pool {
    if id !in p.leases then p
    else p.(leases := p.leases[id := p.leases[id].(
              online := false, updatedAt := now, expiresAt := now + p.offlineGrace)])
  }

  predicate Free(p: Pool, u: u32) {
    Text(u) !in p.reserved && Text(u) !in p.owners
  }

  /** The position of the first free address at or after position k, within one cycle. */
  function ScanFrom(p: Pool, k: nat): (r: Option<nat>)
    requires Ranged(p) && k <= Size(p)
    ensures r.Some? ==> k <= r.value < Size(p) && Free(p, At(p, r.value))
                        && forall j :: k <= j < r.value ==> !Free(p, At(p, j))
    ensures r.None? ==> forall j :: k <= j < Size(p) ==> !Free(p, At(p, j))
    decreases Size(p) - k
  {
    if k == Size(p) then None
    else if Free(p, At(p, k)) then Some(k)
    else ScanFrom(p, k + 1)
  }

  function Renewed(lease: LeaseRec, now: int, ttl: int): LeaseRec {
    lease.(online := true, updatedAt := now, expiresAt := now + ttl)
  }

  function NewLease(id: string, ip: string, now: int, ttl: int): LeaseRec {
    LeaseRec(id, ip, now, now, now + ttl, true)
  }

  function Grant(q: Pool, id: string, u: u32, next: u32, now: int): Pool {
    q.(next := next,
       leases := q.leases[id := NewLease(id, Text(u), now, q.leaseTTL)],
       owners := q.owners[Text(u) := id])
  }

  function Acquire(p: Pool, id: string, now: int): (r: (Pool, Result<LeaseRec, AcquireError>))
    requires Ranged(p)
    ensures Ranged(r.0)
  {
    if id == "" then (p, Err(EmptyClientID))
    else
      var q := Sweep(p, now);
      if id in q.leases then
        var lease := Renewed(q.leases[id], now, q.leaseTTL);
        (q.(leases := q.leases[id := lease]), Ok(lease))
      else
        match ScanFrom(q, 0)
        case None => (q, Err(PoolExhausted))
        case Some(k) =>
          var r := Grant(q, id, At(q, k), At(q, k + 1), now);
          (r, Ok(r.leases[id]))
  }

  datatype Op =
    | AcquireOp(id: string, now: int)
    | MarkOfflineOp(id: string, now: int)
    | ReleaseOp(id: string)
    | SweepOp(now: int)

  function Apply(p: Pool, op: Op): (r: Pool)
    requires Ranged(p)
    ensures Ranged(r) && r.start == p.start && r.end == p.end && r.reserved == p.reserved
  {
    match op
    case AcquireOp(id, now) => Acquire(p, id, now).0
    case MarkOfflineOp(id, now) => MarkOffline(p, id, now)
    case ReleaseOp(id) => Release(p, id)
    case SweepOp(now) => Sweep(p, now)
  }

  function Run(p: Pool, ops: seq<Op>): (r: Pool)
    requires Ranged(p)
    ensures Ranged(r) && r.start == p.start && r.end == p.end
    ensures r.reserved == p.reserved
    decreases ops
  {
    if ops == [] then p else Run(Apply(p, ops[0]), ops[1..])
  }

  /* ------------------------------ every run keeps the invariant ------------------------------ */

  lemma RemoveAllKeeps(p: Pool, ids: set<string>)
    requires Inv(p)
    ensures Inv(RemoveAll(p, ids))
  {
    hide Text;
    var q := RemoveAll(p, ids);
    assert forall ip :: InPool(p, ip) ==> InPool(q, ip);
  }

  /** Releasing a lease frees its address and no other. */
  lemma ReleaseFreesAddress(p: Pool, id: string)
    requires Inv(p)
    ensures Release(p, id).owners == if id in p.leases then p.owners - {p.leases[id].ip} else p.owners
    ensures id !in p.leases ==> Release(p, id) == p
  {
    hide Text, InPool;
  }

  lemma RemoveAllNone(p: Pool)
    ensures RemoveAll(p, {}) == p
  {
  }

  lemma RemoveAllTwice(p: Pool, a: set<string>, b: set<string>)
    ensures RemoveAll(RemoveAll(p, a), b) == RemoveAll(p, a + b)
  {
    assert p.leases - a - b == p.leases - (a + b);
  }

  lemma GrantKeeps(q: Pool, id: string, u: u32, next: u32, now: int)
    requires Inv(q) && id != "" && id !in q.leases
    requires q.start <= u <= q.end && Free(q, u) && q.start <= next <= q.end
    ensures Inv(Grant(q, id, u, next, now))
  {
    hide Text;
    var r := Grant(q, id, u, next, now);
    assert forall ip :: InPool(q, ip) ==> InPool(r, ip);
    assert InPool(r, Text(u));
  }

  lemma ApplyKeeps(p: Pool, op: Op)
    requires Inv(p)
    ensures Inv(Apply(p, op))
  {
    hide Text;
    match op
    case AcquireOp(id, now) =>
      var q := Sweep(p, now);
      RemoveAllKeeps(p, Expired(p, now));
      if id != "" {
        if id in q.leases {
          var r := Acquire(p, id, now).0;
          assert forall ip :: InPool(q, ip) ==> InPool(r, ip);
        } else {
          var k := ScanFrom(q, 0);
          if k.Some? {
            GrantKeeps(q, id, At(q, k.value), At(q, k.value + 1), now);
          }
        }
      }
    case MarkOfflineOp(id, now) =>
      assert forall ip :: InPool(p, ip) ==> InPool(MarkOffline(p, id, now), ip);
    case ReleaseOp(id) =>
      RemoveAllKeeps(p, {id});
    case SweepOp(now) =>
      RemoveAllKeeps(p, Expired(p, now));
  }

  lemma {:induction false} RunKeeps(p: Pool, ops: seq<Op>)
    requires Inv(p)
    ensures Inv(Run(p, ops))
    decreases ops
  {
    if ops != [] {
      ApplyKeeps(p, ops[0]);
      RunKeeps(Apply(p, ops[0]), ops[1..]);
    }
  }

  /** What the invariant is for: no two clients hold one address. */
  lemma NoSharedAddress(p: Pool, ops: seq<Op>, id1: string, id2: string)
    requires Inv(p)
    ensures var r := Run(p, ops);
            id1 in r.leases && id2 in r.leases && r.leases[id1].ip == r.leases[id2].ip ==> id1 == id2
  {
    hide Text;
    RunKeeps(p, ops);
  }

  /* ------------------------------ exhaustion, exactly ------------------------------ */

  function Texts(lo: nat, hi: nat): set<string>
    requires hi <= U32_LIMIT
  {
    set u: u32 | lo <= u < hi :: Text(u)
  }

  lemma {:induction false} TextsCount(lo: nat, hi: nat)
    requires lo <= hi <= U32_LIMIT
    ensures |Texts(lo, hi)| == hi - lo
    decreases hi - lo
  {
    hide Text;
    if lo == hi {
      assert Texts(lo, hi) == {};
    } else {
      TextsCount(lo, hi - 1);
      var u: u32 := hi - 1;
      assert Texts(lo, hi) == Texts(lo, hi - 1) + {Text(u)};
      if Text(u) in Texts(lo, hi - 1) {
        var v: u32 :| lo <= v < hi - 1 && Text(v) == Text(u);
        TextInjective(u, v);
      }
    }
  }

  lemma {:induction false} InverseMapsSameSize<A, B>(m: map<A, B>, n: map<B, A>)
    requires forall a :: a in m ==> m[a] in n && n[m[a]] == a
    requires forall b :: b in n ==> n[b] in m && m[n[b]] == b
    ensures |m| == |n|
    decreases |m|
  {
    if m.Keys == {} {
      assert n.Keys == {};
    } else {
      var a :| a in m;
      var m', n' := m - {a}, n - {m[a]};
      assert m'.Keys == m.Keys - {a} && n'.Keys == n.Keys - {m[a]};
      InverseMapsSameSize(m', n');
    }
  }

  /** The number of addresses the pool can lease. */
  function Capacity(p: Pool): int
    requires Ranged(p)
  {
    Size(p) - |p.reserved * Texts(p.start, p.end + 1)|
  }

  function Usable(p: Pool): set<string>
    requires Ranged(p)
  {
    Texts(p.start, p.end + 1) - p.reserved
  }

  lemma UsableCount(p: Pool)
    requires Ranged(p)
    ensures |Usable(p)| == Capacity(p)
  {
    hide Text;
    var all := Texts(p.start, p.end + 1);
    TextsCount(p.start, p.end + 1);
    assert all == Usable(p) + p.reserved * all;
  }

  lemma OwnersAreLeases(p: Pool)
    requires Inv(p)
    ensures |p.owners.Keys| == |p.leases| && p.owners.Keys <= Usable(p)
  {
    hide Text;
    var addresses := map id | id in p.leases :: p.leases[id].ip;
    InverseMapsSameSize(addresses, p.owners);
    assert addresses.Keys == p.leases.Keys;
    forall ip | ip in p.owners ensures ip in Usable(p) {
      assert InPool(p, ip);
      var u: u32 :| p.start <= u <= p.end && ip == Text(u);
    }
  }

  lemma NoneFreeExactly(p: Pool)
    requires Inv(p)
    ensures ScanFrom(p, 0).None? <==> Usable(p) <= p.owners.Keys
  {
    hide Text;
    if ScanFrom(p, 0).None? {
      forall ip | ip in Usable(p) ensures ip in p.owners {
        var u: u32 :| p.start <= u < p.end + 1 && ip == Text(u);
        var k := AtCovers(p, 0, u);
        assert !Free(p, At(p, k));
      }
    } else {
      var u := At(p, ScanFrom(p, 0).value);
      assert Free(p, u) && Text(u) in Usable(p);
    }
  }

  /** No address is free iff there are as many leases as the pool can hold. */
  lemma FullExactly(p: Pool)
    requires Inv(p)
    ensures ScanFrom(p, 0).None? <==> |p.leases| == Capacity(p)
  {
    hide Text, Usable, Capacity, ScanFrom;
    UsableCount(p);
    OwnersAreLeases(p);
    NoneFreeExactly(p);
    var owned, usable := p.owners.Keys, Usable(p);
    SubsetSize(owned, usable);
    assert usable <= owned ==> usable == owned;
  }

  lemma {:induction false} SubsetSize<T>(a: set<T>, b: set<T>)
    requires a <= b
    ensures |a| <= |b| && (|a| == |b| ==> a == b)
    decreases |a|
  {
    if a != {} {
      var x :| x in a;
      SubsetSize(a - {x}, b - {x});
      assert a == (a - {x}) + {x} && b == (b - {x}) + {x};
    } else if |b| == 0 {
      assert b == {};
    }
  }

  lemma ReservedInPool(p: Pool, gateway: u32)
    requires Ranged(p) && p.reserved == {Text(gateway)}
    ensures Capacity(p) == Size(p) - (if p.start <= gateway <= p.end then 1 else 0)
  {
    hide Text;
    var all := Texts(p.start, p.end + 1);
    if p.start <= gateway <= p.end {
      assert p.reserved * all == {Text(gateway)};
    } else {
      if Text(gateway) in all {
        var u: u32 :| p.start <= u < p.end + 1 && Text(u) == Text(gateway);
        TextInjective(u, gateway);
      }
      assert p.reserved * all == {};
    }
  }

  /** With the gateway as the only reserved address, acquiring for a client without a lease fails
      after the sweep iff the leases number the pool size, less one when the gateway lies in the
      pool. */
  lemma AcquireFailsExactly(p: Pool, id: string, now: int, gateway: u32)
    requires Inv(p) && p.reserved == {Text(gateway)}
    requires id != "" && id !in Sweep(p, now).leases
    ensures Acquire(p, id, now).1.Err? <==>
            |Sweep(p, now).leases| == Size(p) - (if p.start <= gateway <= p.end then 1 else 0)
  {
    hide Text, Capacity;
    var q := Sweep(p, now);
    RemoveAllKeeps(p, Expired(p, now));
    FullExactly(q);
    ReservedInPool(q, gateway);
  }

  /** A successful scan yields the first free address in cyclic order from the cursor and leaves
      the cursor just past it; a failed one leaves the cursor where it was. */
  lemma AcquireTakesFirstFree(p: Pool, id: string, now: int)
    requires Inv(p) && id != "" && id !in Sweep(p, now).leases
    ensures var q, (r, result) := Sweep(p, now), Acquire(p, id, now);
            if result.Err? then r == q && result == Err(PoolExhausted)
            else exists k: nat ::
              && k < Size(p)
              && Free(q, At(q, k)) && (forall j: nat :: j < k ==> !Free(q, At(q, j)))
              && result.value == NewLease(id, Text(At(q, k)), now, p.leaseTTL)
              && r.next == At(q, k + 1)
  {
    hide Text;
    var q := Sweep(p, now);
    var k := ScanFrom(q, 0);
    if k.Some? {
      assert Free(q, At(q, k.value));
    }
  }

  /* ------------------------------ stickiness ------------------------------ */

  /** The operations that take a client's lease away: its release, and any sweep that finds the
      lease offline and past its expiry. */
  predicate Removes(p: Pool, op: Op, id: string) {
    match op
    case ReleaseOp(x) => x == id
    case SweepOp(now) => id in p.leases && IsExpired(p.leases[id], now)
    case AcquireOp(x, now) => x != "" && id in p.leases && IsExpired(p.leases[id], now)
    case MarkOfflineOp(_, _) => false
  }

  lemma LeaseSurvivesExactly(p: Pool, op: Op, id: string)
    requires Inv(p) && id in p.leases
    ensures var q := Apply(p, op);
            if !Removes(p, op, id) then
              && id in q.leases && q.leases[id].ip == p.leases[id].ip
              && q.leases[id].createdAt == p.leases[id].createdAt
            else id in q.leases ==> op.AcquireOp? && op.id == id && q.leases[id].createdAt == op.now
  {
    hide Text, Inv;
  }

  /** No operation of the run takes the client's lease away. */
  predicate NeverRemoved(p: Pool, ops: seq<Op>, id: string)
    requires Ranged(p)
    decreases ops
  {
    ops == [] || (!Removes(p, ops[0], id) && NeverRemoved(Apply(p, ops[0]), ops[1..], id))
  }

  /** A client keeps its address over every run that does not take the lease away, and acquiring
      again returns that address. */
  lemma {:induction false} Sticky(p: Pool, ops: seq<Op>, id: string, now: int)
    requires Inv(p) && id in p.leases
    requires NeverRemoved(p, ops + [AcquireOp(id, now)], id)
    ensures var q := Run(p, ops);
            && id in q.leases && q.leases[id].ip == p.leases[id].ip
            && Acquire(q, id, now).1.Ok? && Acquire(q, id, now).1.value.ip == p.leases[id].ip
    decreases ops
  {
    hide Text;
    var all := ops + [AcquireOp(id, now)];
    if ops == [] {
      assert all[0] == AcquireOp(id, now);
    } else {
      assert all[0] == ops[0] && all[1..] == ops[1..] + [AcquireOp(id, now)];
      LeaseSurvivesExactly(p, ops[0], id);
      ApplyKeeps(p, ops[0]);
      Sticky(Apply(p, ops[0]), ops[1..], id, now);
    }
  }

  lemma StaysOnline(p: Pool, op: Op, id: string)
    requires Inv(p) && id in p.leases && p.leases[id].online
    requires op != ReleaseOp(id) && !(op.MarkOfflineOp? && op.id == id)
    ensures var q := Apply(p, op);
            id in q.leases && q.leases[id].online && q.leases[id].ip == p.leases[id].ip
  {
    hide Text, Inv;
  }

  /** An online client that is neither released nor marked offline keeps its lease online at
      every clock value, whatever the others do. */
  lemma {:induction false} OnlineIsNeverSwept(p: Pool, ops: seq<Op>, id: string)
    requires Inv(p) && id in p.leases && p.leases[id].online
    requires forall i :: 0 <= i < |ops| ==> ops[i] != ReleaseOp(id) && !(ops[i].MarkOfflineOp? && ops[i].id == id)
    ensures var q := Run(p, ops);
            id in q.leases && q.leases[id].online && q.leases[id].ip == p.leases[id].ip
    decreases ops
  {
    hide Text, Apply;
    if ops != [] {
      StaysOnline(p, ops[0], id);
      ApplyKeeps(p, ops[0]);
      OnlineIsNeverSwept(Apply(p, ops[0]), ops[1..], id);
    }
  }

  /* ------------------------------ fairness of the cursor ------------------------------ */

  datatype Verdict = Allocated(to: string) | IsReserved | OwnedBy(owner: string)

  /** One address that a scan looked at, and what it found. */
  datatype Exam = Exam(addr: u32, verdict: Verdict)

  function Judge(q: Pool, u: u32, id: string): Verdict {
    if Text(u) in q.reserved then IsReserved
    else if Text(u) in q.owners then OwnedBy(q.owners[Text(u)])
    else Allocated(id)
  }

  function ScanTrace(q: Pool, id: string, n: nat): (t: seq<Exam>)
    requires Ranged(q)
    ensures |t| == n
  {
    seq(n, k requires 0 <= k => Exam(At(q, k), Judge(q, At(q, k), id)))
  }

  /** The addresses that an operation examines, in order. */
  function Examined(p: Pool, op: Op): seq<Exam>
    requires Ranged(p)
  {
    match op
    case AcquireOp(id, now) =>
      var q := Sweep(p, now);
      if id == "" || id in q.leases then []
      else
        (match ScanFrom(q, 0)
         case None => ScanTrace(q, id, Size(q))
         case Some(k) => ScanTrace(q, id, k + 1))
    case _ => []
  }

  function Trace(p: Pool, ops: seq<Op>): seq<Exam>
    requires Ranged(p)
    decreases ops
  {
    if ops == [] then [] else Examined(p, ops[0]) + Trace(Apply(p, ops[0]), ops[1..])
  }

  /** An exam allocates exactly when it is the last one of a successful acquire, for that client
      and that address. */
  lemma AllocationIsGrant(p: Pool, op: Op, i: nat)
    requires Inv(p) && i < |Examined(p, op)|
    ensures op.AcquireOp?
    ensures var exam := Examined(p, op)[i];
            exam.verdict.Allocated? <==>
            i == |Examined(p, op)| - 1 && exam.verdict == Allocated(op.id)
            && Acquire(p, op.id, op.now).1.Ok?
            && Acquire(p, op.id, op.now).1.value.ip == Text(exam.addr)
  {
    hide Text;
    var q := Sweep(p, op.now);
    assert Examined(p, op)[i].verdict.Allocated? <==> Free(q, At(q, i));
  }

  lemma ExaminedMovesCursor(p: Pool, op: Op)
    requires Ranged(p)
    ensures Apply(p, op).next == At(p, |Examined(p, op)|)
    ensures forall i :: 0 <= i < |Examined(p, op)| ==> Examined(p, op)[i].addr == At(p, i)
  {
    hide Text;
    AtZero(p);
    if op.AcquireOp? {
      var q := Sweep(p, op.now);
      assert forall i: nat :: At(q, i) == At(p, i);
    }
  }

  lemma {:induction false} TraceIsCyclic(p: Pool, ops: seq<Op>, i: nat)
    requires Ranged(p) && i < |Trace(p, ops)|
    ensures Trace(p, ops)[i].addr == At(p, i)
    decreases ops
  {
    hide Text, Examined, Apply;
    var n := |Examined(p, ops[0])|;
    ExaminedMovesCursor(p, ops[0]);
    if i >= n {
      var q := Apply(p, ops[0]);
      TraceIsCyclic(q, ops[1..], i - n);
      AtShift(p, n, i - n);
      assert At(q, i - n) == At(p.(next := At(p, n)), i - n);
    }
  }

  /** Over any run, between two allocations of one address the cursor examines every pool
      address, and finds each allocated, reserved or owned. */
  lemma FairCursor(p: Pool, ops: seq<Op>, i: nat, j: nat, u: u32) returns (k: nat)
    requires Ranged(p) && i < j < |Trace(p, ops)|
    requires Trace(p, ops)[i].verdict.Allocated? && Trace(p, ops)[j].verdict.Allocated?
    requires Trace(p, ops)[i].addr == Trace(p, ops)[j].addr
    requires p.start <= u <= p.end
    ensures i <= k < j && Trace(p, ops)[k].addr == u
  {
    TraceIsCyclic(p, ops, i);
    TraceIsCyclic(p, ops, j);
    AtRevisit(p, i, j);
    k := AtCovers(p, i, u);
    TraceIsCyclic(p, ops, k);
  }
}
