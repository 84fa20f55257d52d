/**
  At-most-once acceptance over a channel that may drop, duplicate, reorder and forge frames: the
  receiver alone, against arbitrary arrivals.
 */
module AtMostOnce {
  import opened Bytes
  import opened Crypto
  import opened Frames
  import opened Replay
  import opened SecureSpec
  import Delivery

  datatype Arrival = Arrival(frame: Frame, times: Times)

  /** An acceptance: which arrival it was, the index of the receive key that it passed under, that
      key, and the sequence number. */
  datatype Entry = Entry(arrival: nat, epoch: int, key: Bytes, n: nat)

  datatype Receiver = Receiver(recv: RecvState, keys: seq<Bytes>, log: seq<Entry>, arrivals: nat)

  function Fresh(key: Bytes): Receiver {
    Receiver(RecvState(RecvKey(1, key, 0, {}), None), [key], [], 0)
  }

  /** One arrival; after an error the receiver simply carries on. */
  ghost function Arrive(p: Primitives, cfg: Config, x: Receiver, a: Arrival): Receiver {
    var (recv, got) := Receive(p, cfg, x.recv, a.frame, a.times);
    var keys := if got.KeyUpdated? then x.keys + [recv.cur.key] else x.keys;
    var log :=
      match Admit(p, cfg, x.recv, a.frame, a.times)
      case Refused(_) => x.log
      case Admitted(w, n, _) =>
        x.log + [Entry(x.arrivals, |x.keys| - (if w.Current? then 1 else 2), KeyOf(x.recv, w).key, n)];
    Receiver(recv, keys, log, x.arrivals + 1)
  }

  ghost function Run(p: Primitives, cfg: Config, x: Receiver, arrivals: seq<Arrival>): Receiver {
    if arrivals == [] then x
    else Arrive(p, cfg, Run(p, cfg, x, arrivals[..|arrivals| - 1]), arrivals[|arrivals| - 1])
  }

  /** The two windows remember exactly what their keys have accepted, and a key that has been
      dropped accepts nothing any more. */
  ghost predicate Inv(x: Receiver) {
    Keyed(x) && Remembered(x) && Distinct(x)
  }

  ghost predicate Keyed(x: Receiver) {
    var newest := |x.keys| - 1;
    && newest >= 0 && x.keys[newest] == x.recv.cur.key
    && (newest == 0 ==> x.recv.prev.None?)
    && (newest > 0 ==> x.recv.prev.Some? && x.keys[newest - 1] == x.recv.prev.value.key)
  }

  ghost predicate Remembered(x: Receiver)
    requires Keyed(x)
  {
    var newest := |x.keys| - 1;
    && (forall k :: 0 <= k < |x.log| ==>
          var e := x.log[k];
          && 0 <= e.epoch <= newest && e.key == x.keys[e.epoch] && e.arrival < x.arrivals
          && (e.epoch == newest ==> e.n in x.recv.cur.accepted)
          && (e.epoch == newest - 1 ==> e.n in x.recv.prev.value.accepted))
  }

  ghost predicate Distinct(x: Receiver) {
    && (forall i, j :: 0 <= i < j < |x.log| ==>
          !(x.log[i].epoch == x.log[j].epoch && x.log[i].n == x.log[j].n))
    && (forall i, j :: 0 <= i < j < |x.log| ==> x.log[i].arrival < x.log[j].arrival)
  }

  /** The receiver once number n has been accepted under one of its keys. */
  ghost function Marked(x: Receiver, w: Which, n: nat): Receiver
    requires w.Previous? ==> x.recv.prev.Some?
  {
    x.(recv := Mark(x.recv, w, n),
       log := x.log + [Entry(x.arrivals, |x.keys| - (if w.Current? then 1 else 2), KeyOf(x.recv, w).key, n)],
       arrivals := x.arrivals + 1)
  }

  ghost function Installed(p: Primitives, cfg: Config, x: Receiver, salt: Bytes, now: int): Receiver {
    var recv := Install(p, cfg, x.recv, salt, now);
    x.(recv := recv, keys := x.keys + [recv.cur.key])
  }

  lemma MarkedKeeps(x: Receiver, w: Which, n: nat)
    requires Inv(x) && (w.Previous? ==> x.recv.prev.Some?) && n !in KeyOf(x.recv, w).accepted
    ensures Inv(Marked(x, w, n))
  {
  }

  /** The demoted key keeps its window, and the one before it is gone for good. */
  lemma InstalledKeeps(p: Primitives, cfg: Config, x: Receiver, salt: Bytes, now: int)
    requires Inv(x)
    ensures Inv(Installed(p, cfg, x, salt, now))
  {
    hide DeriveRotatedKey;
  }

  lemma ArriveKeeps(p: Primitives, cfg: Config, x: Receiver, a: Arrival)
    requires Inv(x)
    ensures Inv(Arrive(p, cfg, x, a))
  {
    hide Admit, Arrive, Marked, Installed, Inv;
    ArriveCases(p, cfg, x, a);
    match Admit(p, cfg, x.recv, a.frame, a.times)
    case Refused(_) => ArrivalsKeep(x);
    case Admitted(w, n, plain) =>
      AdmittedIsNew(p, cfg, x.recv, a.frame, a.times);
      MarkedKeeps(x, w, n);
      InstalledKeeps(p, cfg, Marked(x, w, n), plain[1..], a.times.install);
  }

  lemma ArriveCases(p: Primitives, cfg: Config, x: Receiver, a: Arrival)
    ensures match Admit(p, cfg, x.recv, a.frame, a.times)
            case Refused(_) => Arrive(p, cfg, x, a) == x.(arrivals := x.arrivals + 1)
            case Admitted(w, n, plain) =>
              && (w.Previous? ==> x.recv.prev.Some?) && plain != []
              && (|| Arrive(p, cfg, x, a) == Marked(x, w, n)
                  || Arrive(p, cfg, x, a) == Installed(p, cfg, Marked(x, w, n), plain[1..], a.times.install))
  {
    hide Admit, Install, Mark;
    if Admit(p, cfg, x.recv, a.frame, a.times).Admitted? {
      AdmittedIsNew(p, cfg, x.recv, a.frame, a.times);
    }
  }

  lemma ArrivalsKeep(x: Receiver)
    requires Inv(x)
    ensures Inv(x.(arrivals := x.arrivals + 1))
  {
  }

  lemma AdmittedIsNew(p: Primitives, cfg: Config, r: RecvState, f: Frame, t: Times)
    requires Admit(p, cfg, r, f, t).Admitted?
    ensures var a := Admit(p, cfg, r, f, t);
            && (a.which.Previous? ==> r.prev.Some?) && a.n !in KeyOf(r, a.which).accepted && a.n != 0
            && a.plain != []
  {
  }

  lemma {:induction false} RunKeeps(p: Primitives, cfg: Config, x: Receiver, arrivals: seq<Arrival>)
    requires Inv(x)
    ensures Inv(Run(p, cfg, x, arrivals))
    ensures Run(p, cfg, x, arrivals).arrivals == x.arrivals + |arrivals|
  {
    if arrivals != [] {
      var before := arrivals[..|arrivals| - 1];
      RunKeeps(p, cfg, x, before);
      ArriveKeeps(p, cfg, Run(p, cfg, x, before), arrivals[|arrivals| - 1]);
    }
  }

  /** Whatever frames arrive, forged ones included, in whatever order and at whatever times: no
      sequence number is accepted twice under one receive key, across any number of key changes
      and grace periods. */
  lemma AcceptedAtMostOnce(p: Primitives, cfg: Config, key: Bytes, arrivals: seq<Arrival>, i: nat, j: nat)
    requires i < j < |Run(p, cfg, Fresh(key), arrivals).log|
    ensures var log := Run(p, cfg, Fresh(key), arrivals).log;
            !(log[i].epoch == log[j].epoch && log[i].n == log[j].n)
  {
    RunKeeps(p, cfg, Fresh(key), arrivals);
  }

  /* ------------------------------ frames that the sender sealed ------------------------------ */

  /** The frame carries number n and decrypts under the key. */
  ghost predicate OpensUnder(p: Primitives, cfg: Config, f: Frame, key: Bytes, n: nat) {
    && |f.payload| >= 12 && n < U64_LIMIT && FromBE(f.payload[0..4]) < U32_LIMIT
    && n == FromBE(f.payload[4..12])
    && p.open(key, SeqNonce(n), f.payload[12..], EncryptedAAD(cfg, FromBE(f.payload[0..4]), n)).Some?
  }

  lemma AdmittedOpens(p: Primitives, cfg: Config, r: RecvState, f: Frame, t: Times)
    requires Admit(p, cfg, r, f, t).Admitted?
    ensures var a := Admit(p, cfg, r, f, t);
            (a.which.Previous? ==> r.prev.Some?) && OpensUnder(p, cfg, f, KeyOf(r, a.which).key, a.n)
  {
    Widths();
  }

  /** Every acceptance in the log goes back to an arrival that opened under the logged key. */
  lemma {:induction false} EntryOrigin(p: Primitives, cfg: Config, key: Bytes, arrivals: seq<Arrival>, k: nat)
    requires k < |Run(p, cfg, Fresh(key), arrivals).log|
    ensures var e := Run(p, cfg, Fresh(key), arrivals).log[k];
            e.arrival < |arrivals| && OpensUnder(p, cfg, arrivals[e.arrival].frame, e.key, e.n)
  {
    hide Admit, OpensUnder, DeriveRotatedKey;
    if arrivals != [] {
      var before, last := arrivals[..|arrivals| - 1], arrivals[|arrivals| - 1];
      var x := Run(p, cfg, Fresh(key), before);
      RunKeeps(p, cfg, Fresh(key), before);
      if k < |x.log| {
        EntryOrigin(p, cfg, key, before, k);
      } else {
        AdmittedOpens(p, cfg, x.recv, last.frame, last.times);
      }
    }
  }

  /** Hence a sealed frame that the channel duplicates, delays or reorders is accepted at most
      once: unless two receive keys of the run coincide, or the frame decrypts under a key other
      than its own. */
  lemma SealedFrameAcceptedAtMostOnce(p: Primitives, cfg: Config, key: Bytes, arrivals: seq<Arrival>,
                                      sent: Delivery.Sent, i: nat, j: nat)
    requires i < j < |Run(p, cfg, Fresh(key), arrivals).log|
    requires var keys := Run(p, cfg, Fresh(key), arrivals).keys;
             && (forall k, m :: 0 <= k < m < |keys| ==> keys[k] != keys[m])
             && (forall k, n :: 0 <= k < |keys| && OpensUnder(p, cfg, Delivery.FrameOf(p, cfg, sent), keys[k], n)
                                ==> keys[k] == sent.key)
    ensures var log := Run(p, cfg, Fresh(key), arrivals).log;
            && log[i].arrival < log[j].arrival < |arrivals|
            && !(arrivals[log[i].arrival].frame == arrivals[log[j].arrival].frame == Delivery.FrameOf(p, cfg, sent))
  {
    hide SealedFrame, Run;
    RunKeeps(p, cfg, Fresh(key), arrivals);
    EntryOrigin(p, cfg, key, arrivals, i);
    EntryOrigin(p, cfg, key, arrivals, j);
  }
}
