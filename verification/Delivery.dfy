/**
  Delivery over an in-order stream: any number of writers, serialised by the write lock and
  interleaved with the reader, rotations and failures in every possible way.
 */
module Delivery {
  import opened Bytes
  import opened Crypto
  import opened Frames
  import opened Replay
  import opened SecureSpec

  /** What was sealed into a frame. */
  datatype Sent = Sent(id: u32, key: Bytes, n: u64, inner: byte, payload: Bytes)

  function FrameOf(p: Primitives, cfg: Config, s: Sent): Frame {
    SealedFrame(p, cfg, s.id, s.key, s.n, s.inner, s.payload)
  }

  /** One stretch of the stream: a whole frame, of which the receiver gets only the bytes, or
      bytes that do not make a frame (a write cut short by the transport, or a frame longer than
      its 32-bit length field can say). The reader fails there; Torn says exactly when that is so. */
  datatype Item = Whole(sent: Sent) | Garbled

  /** Where the holder of the write lock stands. */
  datatype Writer =
    | Free
    | Entered(inner: byte, payload: Bytes)
    | MustRotate(inner: byte, payload: Bytes)
    | MustInstall(salt: Bytes, inner: byte, payload: Bytes)
    | Ready(inner: byte, payload: Bytes)

  /** A rotation check: the index of the key that was checked, and the clock reading. */
  datatype Check = Check(epoch: int, at: int)

  /** A seal: the index of its key among the sender's keys, its sequence number, what was sealed, and
      the rotation check that its write began with. */
  datatype Seal = Seal(epoch: int, n: u64, inner: byte, check: Check)

  datatype Sys = Sys(
    send: SendKey,
    closed: bool,
    writer: Writer,
    wire: seq<Item>,
    recv: RecvState,
    readError: Option<Error>,
    // History: payloads written with success, payloads returned by reads, the seals made, the
    // send keys so far, whether the stream was ever garbled, the latest rotation check, when each
    // key was made, and the clock reading of the check that led to the replacement of each.
    written: seq<Bytes>,
    delivered: seq<Bytes>,
    seals: seq<Seal>,
    keys: seq<Bytes>,
    garbled: bool,
    check: Check,
    created: seq<int>,
    rotated: seq<int>)

  /** What the transport does with a frame: take it whole, take nothing, or cut it short. */
  datatype Fate = Taken | Lost | Torn

  datatype Step =
    | Enter(inner: byte, payload: Bytes)
    | CheckRotation(now: int)
    | RandomFails
    | SendUpdate(salt: Bytes, fate: Fate)
    | InstallSendKey(now: int)
    | SendPayload(fate: Fate)
    | CloseSender
    | ReadNext(t: Times)

  function Init(key: Bytes, now: int): Sys {
    Sys(SendKey(1, key, now, 0), false, Free, [], RecvState(RecvKey(1, key, 0, {}), None), None,
        [], [], [], [key], false, Check(0, now), [now], [])
  }

  /** Seals one frame and hands it to the transport; the second result tells whether the write
      reports success. */
  function Transmit(p: Primitives, cfg: Config, s: Sys, inner: byte, payload: Bytes, fate: Fate): (Sys, bool) {
    if s.closed then (s, false)
    else
      var key := Consume(s.send);
      var used := s.(send := key, seals := s.seals + [Seal(|s.keys| - 1, key.count, inner, s.check)]);
      if !AesKey(s.send.key) then (used, false)
      else
        var sent := Sent(key.id, key.key, key.count, inner, payload);
        var f := FrameOf(p, cfg, sent);
        if !Writable(cfg, f) || fate.Lost? then (used, false)
        else if fate.Torn? then (used.(wire := s.wire + [Garbled], garbled := true), false)
        else if |f.payload| >= U32_LIMIT then (used.(wire := s.wire + [Garbled], garbled := true), true)
        else (used.(wire := s.wire + [Whole(sent)]), true)
  }

  /** The reader takes the next stretch of the stream. */
  ghost function TakeNext(p: Primitives, cfg: Config, s: Sys, t: Times): Sys
    requires s.wire != []
  {
    match s.wire[0]
    case Garbled => s.(readError := Some(BadFrame))
    case Whole(sent) =>
      var (recv, got) := Receive(p, cfg, s.recv, FrameOf(p, cfg, sent), t);
      var rest := s.(recv := recv, wire := s.wire[1..]);
      match got
      case Rejected(e) => rest.(readError := Some(e))
      case KeyUpdated => rest
      case Opened(inner, payload) =>
        if inner == INNER_DATA then rest.(delivered := s.delivered + [payload])
        else if inner == INNER_PING || inner == INNER_PONG then rest
        else rest.(readError := Some(BadFrame))
  }

  /** A step that is not enabled leaves the state as it is. */
  ghost function Next(p: Primitives, cfg: Config, s: Sys, step: Step): Sys {
    match (step, s.writer)
    case (Enter(inner, payload), Free) =>
      if inner == INNER_DATA || inner == INNER_PING || inner == INNER_PONG
      then s.(writer := Entered(inner, payload)) else s
    case (CheckRotation(now), Entered(inner, payload)) =>
      s.(writer := if RotationDue(cfg, s.send, now) then MustRotate(inner, payload) else Ready(inner, payload),
         check := Check(|s.keys| - 1, now))
    case (RandomFails, MustRotate(_, _)) => s.(writer := Free)
    case (SendUpdate(salt, fate), MustRotate(inner, payload)) =>
      if |salt| != SALT_SIZE then s
      else
        var (after, ok) := Transmit(p, cfg, s, INNER_KEY_UPDATE, salt, fate);
        after.(writer := if ok then MustInstall(salt, inner, payload) else Free)
    case (InstallSendKey(now), MustInstall(salt, inner, payload)) =>
      var next := RotateSend(p, s.send, salt, now);
      s.(send := next, keys := s.keys + [next.key], writer := Ready(inner, payload),
         created := s.created + [now], rotated := s.rotated + [s.check.at])
    case (SendPayload(fate), Ready(inner, payload)) =>
      var (after, ok) := Transmit(p, cfg, s, inner, payload, fate);
      after.(writer := Free,
             written := if ok && inner == INNER_DATA then s.written + [payload] else s.written)
    case (CloseSender, _) => s.(closed := true)
    case (ReadNext(t), _) => if s.wire == [] || s.readError.Some? then s else TakeNext(p, cfg, s, t)
    case _ => s
  }

  ghost function Run(p: Primitives, cfg: Config, s: Sys, steps: seq<Step>): Sys {
    if steps == [] then s else Next(p, cfg, Run(p, cfg, s, steps[..|steps| - 1]), steps[|steps| - 1])
  }

  /** No key seals so many frames that its 64-bit counter runs out. */
  ghost predicate CountersLast(p: Primitives, cfg: Config, s: Sys, steps: seq<Step>) {
    forall k :: 0 <= k <= |steps| ==> Run(p, cfg, s, steps[..k]).send.count < U64_LIMIT - 1
  }

  /* ------------------------------ the invariant ------------------------------ */

  ghost predicate Below(accepted: set<nat>, n: nat) {
    forall a :: a in accepted ==> a < n
  }

  /** An epoch as one side sees it: its key id, its key, and the next number at the earliest. */
  datatype Epoch = Epoch(id: u32, key: Bytes, next: nat)

  /** Replaying the frames in flight, key updates included, leads from the receiver's key to the
      sender's: each frame is sealed under the key that is current when it is reached, with a
      number above all before it. */
  ghost predicate Linked(p: Primitives, from: RecvKey, wire: seq<Item>, to: Epoch)
    decreases wire
  {
    if wire == [] then from.id == to.id && from.key == to.key && Below(from.accepted, to.next) && to.next > 0
    else
      match wire[0]
      case Garbled => true
      case Whole(s) =>
        && s.id == from.id && s.key == from.key && |s.key| == KEY_LEN
        && s.n > 0 && Below(from.accepted, s.n)
        && INNER_DATA <= s.inner <= INNER_KEY_UPDATE
        && (s.inner == INNER_KEY_UPDATE ==> |s.payload| == SALT_SIZE)
        && Linked(p, AfterSent(p, from, s), wire[1..], to)
  }

  function AfterSent(p: Primitives, from: RecvKey, s: Sent): RecvKey {
    if s.inner == INNER_KEY_UPDATE
    then RecvKey(NextID(from.id), DeriveRotatedKey(p, from.key, s.payload), 0, {})
    else from.(accepted := from.accepted + {s.n})
  }

  /** The payloads in flight that can still be delivered. */
  function Pending(wire: seq<Item>): seq<Bytes> {
    if wire == [] || wire[0].Garbled? then []
    else
      var s := wire[0].sent;
      (if s.inner == INNER_DATA then [s.payload] else []) + Pending(wire[1..])
  }

  /** The epoch that the sender's next frame belongs to: while a key update is out but its key not
      yet installed, already the next one. */
  function SenderEpoch(p: Primitives, s: Sys): Epoch {
    if s.writer.MustInstall?
    then Epoch(NextID(s.send.id), DeriveRotatedKey(p, s.send.key, s.writer.salt), 1)
    else Epoch(s.send.id, s.send.key, s.send.count + 1)
  }

  ghost predicate Inv(p: Primitives, s: Sys) {
    && |s.send.key| == KEY_LEN
    && (s.writer.Entered? || s.writer.MustRotate? || s.writer.MustInstall? || s.writer.Ready? ==>
          INNER_DATA <= s.writer.inner <= INNER_PONG)
    && (s.readError.None? ==> Linked(p, s.recv.cur, s.wire, SenderEpoch(p, s)))
    && s.delivered <= s.written
    && (s.readError.None? ==> s.delivered + Pending(s.wire) <= s.written)
    && (!s.garbled ==>
          && s.readError.None?
          && s.delivered + Pending(s.wire) == s.written)
    && (s.garbled <==> Garbled in s.wire)
  }

  /* ------------------------------ appending to the wire ------------------------------ */

  lemma {:induction false} LinkedAppend(p: Primitives, from: RecvKey, wire: seq<Item>, to: Epoch, s: Sent, after: Epoch)
    requires Linked(p, from, wire, to)
    requires s.id == to.id && s.key == to.key && |s.key| == KEY_LEN && s.n >= to.next
    requires INNER_DATA <= s.inner <= INNER_KEY_UPDATE
    requires s.inner == INNER_KEY_UPDATE ==> |s.payload| == SALT_SIZE
    requires after == if s.inner == INNER_KEY_UPDATE
                      then Epoch(NextID(s.id), DeriveRotatedKey(p, s.key, s.payload), 1)
                      else Epoch(s.id, s.key, s.n + 1)
    ensures Linked(p, from, wire + [Whole(s)], after)
    decreases wire
  {
    var all := wire + [Whole(s)];
    if wire == [] {
      assert all[0] == Whole(s) && all[1..] == [];
    } else {
      assert all[0] == wire[0] && all[1..] == wire[1..] + [Whole(s)];
      if wire[0].Whole? {
        LinkedAppend(p, AfterSent(p, from, wire[0].sent), wire[1..], to, s, after);
      }
    }
  }

  lemma {:induction false} LinkedGarble(p: Primitives, from: RecvKey, wire: seq<Item>, to: Epoch, any: Epoch)
    requires Linked(p, from, wire, to)
    ensures Linked(p, from, wire + [Garbled], any)
    decreases wire
  {
    var all := wire + [Garbled];
    if wire == [] {
      assert all[0] == Garbled;
    } else {
      assert all[0] == wire[0] && all[1..] == wire[1..] + [Garbled];
      if wire[0].Whole? {
        LinkedGarble(p, AfterSent(p, from, wire[0].sent), wire[1..], to, any);
      }
    }
  }

  lemma {:induction false} LinkedLater(p: Primitives, from: RecvKey, wire: seq<Item>, to: Epoch, later: Epoch)
    requires Linked(p, from, wire, to)
    requires later.id == to.id && later.key == to.key && later.next >= to.next
    ensures Linked(p, from, wire, later)
    decreases wire
  {
    if wire != [] && wire[0].Whole? {
      LinkedLater(p, AfterSent(p, from, wire[0].sent), wire[1..], to, later);
    }
  }

  lemma {:induction false} PendingAppend(wire: seq<Item>, item: Item)
    ensures Garbled in wire ==> Pending(wire + [item]) == Pending(wire)
    ensures Garbled !in wire ==> Pending(wire + [item]) == Pending(wire) + Pending([item])
  {
    var all := wire + [item];
    if wire == [] {
      assert all == [item];
    } else {
      assert all[0] == wire[0] && all[1..] == wire[1..] + [item];
      if wire[0].Whole? {
        PendingAppend(wire[1..], item);
        assert Garbled in wire <==> Garbled in wire[1..];
      }
    }
  }

  /* ------------------------------ the reader ------------------------------ */

  /** What the receiver makes of a frame sealed under its current key with a number above all
      that it has accepted. */
  lemma ReceiveInOrder(p: Primitives, cfg: Config, r: RecvState, s: Sent, t: Times)
    requires p.Correct()
    requires s.id == r.cur.id && s.key == r.cur.key && |s.key| == KEY_LEN
    requires s.n > 0 && Below(r.cur.accepted, s.n)
    requires s.inner == INNER_KEY_UPDATE ==> |s.payload| == SALT_SIZE
    ensures var (after, got) := Receive(p, cfg, r, FrameOf(p, cfg, s), t);
            && after.cur == AfterSent(p, r.cur, s)
            && got == if s.inner == INNER_KEY_UPDATE then KeyUpdated else Opened(s.inner, s.payload)
  {
    var f := FrameOf(p, cfg, s);
    Widths();
    FieldRoundTrip(s.id, 4);
    FieldRoundTrip(s.n, 8);
    var sealed := p.seal(s.key, SeqNonce(s.n), [s.inner] + s.payload, EncryptedAAD(cfg, s.id, s.n));
    assert f.payload[0..4] == BE(s.id, 4) && f.payload[4..12] == BE(s.n, 8) && f.payload[12..] == sealed;
    assert p.open(s.key, SeqNonce(s.n), sealed, EncryptedAAD(cfg, s.id, s.n)) == Some([s.inner] + s.payload);
    assert ([s.inner] + s.payload)[1..] == s.payload;
    assert Accepts(r.cur.accepted, EffectiveSize(cfg.replayWindow), s.n);
  }

  lemma LinkedHead(p: Primitives, from: RecvKey, wire: seq<Item>, to: Epoch)
    requires Linked(p, from, wire, to) && wire != [] && wire[0].Whole?
    ensures var s := wire[0].sent;
            && s.id == from.id && s.key == from.key && |s.key| == KEY_LEN
            && s.n > 0 && Below(from.accepted, s.n)
            && INNER_DATA <= s.inner <= INNER_KEY_UPDATE
            && (s.inner == INNER_KEY_UPDATE ==> |s.payload| == SALT_SIZE)
            && Linked(p, AfterSent(p, from, s), wire[1..], to)
  {
  }

  lemma PendingHead(wire: seq<Item>)
    requires wire != [] && wire[0].Whole?
    ensures var s := wire[0].sent;
            Pending(wire) == (if s.inner == INNER_DATA then [s.payload] else []) + Pending(wire[1..])
    ensures Garbled in wire <==> Garbled in wire[1..]
  {
    assert wire == [wire[0]] + wire[1..];
  }

  lemma TakeNextKeeps(p: Primitives, cfg: Config, s: Sys, t: Times)
    requires p.Correct() && Inv(p, s) && s.wire != [] && s.readError.None?
    ensures Inv(p, TakeNext(p, cfg, s, t))
  {
    hide Receive, FrameOf, DeriveRotatedKey, Below, Linked, AfterSent, Pending;
    if s.wire[0].Whole? {
      var sent := s.wire[0].sent;
      LinkedHead(p, s.recv.cur, s.wire, SenderEpoch(p, s));
      ReceiveInOrder(p, cfg, s.recv, sent, t);
      PendingHead(s.wire);
      var after := TakeNext(p, cfg, s, t);
      assert after.delivered + Pending(s.wire[1..]) == s.delivered + Pending(s.wire);
    }
  }

  /* ------------------------------ the sender ------------------------------ */

  /** The epoch of the frame that follows a transmission. */
  function EpochAfter(p: Primitives, s: Sys, inner: byte, payload: Bytes, ok: bool): Epoch {
    if ok && inner == INNER_KEY_UPDATE
    then Epoch(NextID(s.send.id), DeriveRotatedKey(p, s.send.key, payload), 1)
    else Epoch(s.send.id, s.send.key, s.send.count + 1)
  }

  lemma TransmitLinks(p: Primitives, cfg: Config, s: Sys, inner: byte, payload: Bytes, fate: Fate)
    requires Inv(p, s) && !s.writer.MustInstall? && s.send.count < U64_LIMIT - 1
    requires INNER_DATA <= inner <= INNER_KEY_UPDATE
    requires inner == INNER_KEY_UPDATE ==> |payload| == SALT_SIZE
    ensures var (after, ok) := Transmit(p, cfg, s, inner, payload, fate);
            s.readError.None? ==> Linked(p, s.recv.cur, after.wire, EpochAfter(p, after, inner, payload, ok))
  {
    hide FrameOf, Encode, DeriveRotatedKey;
    var (after, ok) := Transmit(p, cfg, s, inner, payload, fate);
    if s.readError.None? {
      var here, later := SenderEpoch(p, s), EpochAfter(p, after, inner, payload, ok);
      if after.wire == s.wire {
        LinkedLater(p, s.recv.cur, s.wire, here, later);
      } else {
        var item := after.wire[|s.wire|];
        assert after.wire == s.wire + [item];
        if item.Garbled? {
          LinkedGarble(p, s.recv.cur, s.wire, here, later);
        } else {
          LinkedAppend(p, s.recv.cur, s.wire, here, item.sent, later);
        }
      }
    }
  }

  lemma TransmitConserves(p: Primitives, cfg: Config, s: Sys, inner: byte, payload: Bytes, fate: Fate)
    requires Inv(p, s)
    ensures var (after, ok) := Transmit(p, cfg, s, inner, payload, fate);
            var written := if ok && inner == INNER_DATA then s.written + [payload] else s.written;
            && after.delivered == s.delivered && s.delivered <= written
            && (s.readError.None? ==> s.delivered + Pending(after.wire) <= written)
            && (!after.garbled ==> !s.garbled && s.delivered + Pending(after.wire) == written)
            && (after.garbled <==> Garbled in after.wire)
  {
    hide FrameOf, Encode, DeriveRotatedKey, Linked;
    var (after, ok) := Transmit(p, cfg, s, inner, payload, fate);
    if after.wire != s.wire {
      var item := after.wire[|s.wire|];
      assert after.wire == s.wire + [item];
      PendingAppend(s.wire, item);
      assert Pending([item]) == if item.Whole? && inner == INNER_DATA then [payload] else [] by {
        assert [item][1..] == [];
      }
    }
  }

  /** Transmitting touches nothing but the sender's counter, the wire and the history of seals. */
  lemma TransmitFrame(p: Primitives, cfg: Config, s: Sys, inner: byte, payload: Bytes, fate: Fate)
    ensures var (after, ok) := Transmit(p, cfg, s, inner, payload, fate);
            && after.send == s.send.(count := after.send.count)
            && after == s.(send := after.send, wire := after.wire, seals := after.seals, garbled := after.garbled)
  {
    hide FrameOf, Encode;
  }

  /** A frame has been transmitted, and the writer has moved on. */
  lemma TransmittedKeeps(p: Primitives, cfg: Config, s: Sys, inner: byte, payload: Bytes, fate: Fate, t: Sys)
    requires Inv(p, s) && !s.writer.MustInstall? && s.send.count < U64_LIMIT - 1
    requires INNER_DATA <= inner <= INNER_KEY_UPDATE && (inner == INNER_KEY_UPDATE ==> |payload| == SALT_SIZE)
    requires var (after, ok) := Transmit(p, cfg, s, inner, payload, fate);
             && t == after.(writer := t.writer,
                            written := if ok && inner == INNER_DATA then s.written + [payload] else s.written)
             && SenderEpoch(p, t) == EpochAfter(p, after, inner, payload, ok)
    requires t.writer.Entered? || t.writer.MustRotate? || t.writer.MustInstall? || t.writer.Ready? ==>
               INNER_DATA <= t.writer.inner <= INNER_PONG
    ensures Inv(p, t)
  {
    TransmitFrame(p, cfg, s, inner, payload, fate);
    TransmitLinks(p, cfg, s, inner, payload, fate);
    TransmitConserves(p, cfg, s, inner, payload, fate);
    hide Linked, Pending, Transmit, SenderEpoch, EpochAfter;
  }

  lemma NextKeeps(p: Primitives, cfg: Config, s: Sys, step: Step)
    requires p.Correct() && Inv(p, s) && s.send.count < U64_LIMIT - 1
    ensures Inv(p, Next(p, cfg, s, step))
  {
    hide Linked, TakeNext, Pending, Transmit, DeriveRotatedKey, Below;
    match (step, s.writer)
    case (SendUpdate(salt, fate), MustRotate(_, _)) =>
      if |salt| == SALT_SIZE {
        TransmitFrame(p, cfg, s, INNER_KEY_UPDATE, salt, fate);
        TransmittedKeeps(p, cfg, s, INNER_KEY_UPDATE, salt, fate, Next(p, cfg, s, step));
      }
    case (SendPayload(fate), Ready(inner, payload)) =>
      TransmitFrame(p, cfg, s, inner, payload, fate);
      TransmittedKeeps(p, cfg, s, inner, payload, fate, Next(p, cfg, s, step));
    case (ReadNext(t), _) =>
      if s.wire != [] && s.readError.None? {
        TakeNextKeeps(p, cfg, s, t);
      }
    case (InstallSendKey(now), MustInstall(salt, _, _)) =>
      RotatedKeyLength(p, s.send.key, salt);
    case _ =>
  }

  lemma {:induction false} RunKeeps(p: Primitives, cfg: Config, s: Sys, steps: seq<Step>)
    requires p.Correct() && Inv(p, s) && CountersLast(p, cfg, s, steps)
    ensures Inv(p, Run(p, cfg, s, steps))
  {
    if steps != [] {
      var before := steps[..|steps| - 1];
      assert forall k :: 0 <= k <= |before| ==> steps[..k] == before[..k];
      RunKeeps(p, cfg, s, before);
      assert steps[..|before|] == before;
      NextKeeps(p, cfg, Run(p, cfg, s, before), steps[|steps| - 1]);
    }
  }

  /** The main theorem. In every run that starts from a shared key, whatever the writers, the
      rotations, the clocks, the transport and the reader do: the payloads returned by reads are
      a prefix of the payloads written with success. As long as no write was cut short, the reader
      has reported no error at all, and what is not yet delivered is exactly what is in flight. */
  lemma InOrderDelivery(p: Primitives, cfg: Config, key: Bytes, now: int, steps: seq<Step>)
    requires p.Correct() && |key| == KEY_LEN && CountersLast(p, cfg, Init(key, now), steps)
    ensures var s := Run(p, cfg, Init(key, now), steps);
            && s.delivered <= s.written
            && (!s.garbled ==> s.readError.None? && s.delivered + Pending(s.wire) == s.written)
            && (!s.garbled && s.wire == [] ==> s.delivered == s.written)
  {
    RunKeeps(p, cfg, Init(key, now), steps);
  }

  /** Why the counter must last: a frame whose 64-bit number has wrapped to 0 is refused by every
      receiver in every state. */
  lemma WrappedCounterRefused(p: Primitives, cfg: Config, r: RecvState, s: Sent, t: Times)
    requires s.n == 0
    ensures Receive(p, cfg, r, FrameOf(p, cfg, s), t).1.Rejected?
  {
    var f := FrameOf(p, cfg, s);
    Widths();
    FieldRoundTrip(0, 8);
    assert f.payload[4..12] == BE(0, 8);
  }

  /** The receiver's epoch is the sender's once the stream is drained and no rotation is under way. */
  lemma DrainedKeysAgree(p: Primitives, cfg: Config, key: Bytes, now: int, steps: seq<Step>)
    requires p.Correct() && |key| == KEY_LEN && CountersLast(p, cfg, Init(key, now), steps)
    ensures var s := Run(p, cfg, Init(key, now), steps);
            s.readError.None? && s.wire == [] && !s.writer.MustInstall? ==>
              s.recv.cur.id == s.send.id && s.recv.cur.key == s.send.key
  {
    RunKeeps(p, cfg, Init(key, now), steps);
  }
}
