/** When keys are replaced: exactly at the writes that find them too old. */
module Rotation {
  import opened Bytes
  import opened Crypto
  import opened Frames
  import opened SecureSpec
  import opened SecureConns
  import opened Delivery

  /** The frame that a key seals next. */
  function Sealed(p: Primitives, cfg: Config, key: SendKey, inner: byte, payload: Bytes): Frame
    requires key.count < U64_LIMIT - 1
  {
    FrameOf(p, cfg, Sent(key.id, key.key, key.count + 1, inner, payload))
  }

  /** One successful write. If keys are to be replaced at all and this one has reached the age for it,
      the write puts out a key update under the old key and the payload under a new one, made of the
      old key and the salt, of the next id and with its first number; else it puts out the payload
      alone, and the key stays. */
  lemma WriteRotatesExactly(p: Primitives, cfg: Config, s: SendKey, inner: byte, payload: Bytes, env: WriteEnv)
    requires s.count < U64_LIMIT - 1
    requires WriteThrough(p, cfg, s, false, inner, payload, env).err.None?
    ensures var w := WriteThrough(p, cfg, s, false, inner, payload, env);
            if 0 < cfg.keyRotateInterval <= env.checkedAt - s.created then
              && env.salt.Some?
              && (var key := SendKey((s.id + 1) % U32_LIMIT, DeriveRotatedKey(p, s.key, env.salt.value), env.createdAt, 0);
                  && w.key == key.(count := 1)
                  && w.bytes == Encode(cfg, Sealed(p, cfg, s, INNER_KEY_UPDATE, env.salt.value))
                                + Encode(cfg, Sealed(p, cfg, key, inner, payload)))
            else
              && w.key == s.(count := s.count + 1)
              && w.bytes == Encode(cfg, Sealed(p, cfg, s, inner, payload))
  {
    hide SealedFrame, Encode, DeriveRotatedKey;
    var w := WriteThrough(p, cfg, s, false, inner, payload, env);
    if !RotationDue(cfg, s, env.checkedAt) {
      assert [] + Encode(cfg, Sealed(p, cfg, s, inner, payload)) == Encode(cfg, Sealed(p, cfg, s, inner, payload));
    }
  }

  /** A write that fails, for whatever reason, replaces no key that has not reached the age, and puts
      out nothing but a key update, or a part of one, under a key that has, unless it has replaced
      it. */
  lemma FailedWriteRotates(p: Primitives, cfg: Config, s: SendKey, closed: bool, inner: byte, payload: Bytes, env: WriteEnv)
    requires s.count < U64_LIMIT - 1
    requires WriteThrough(p, cfg, s, closed, inner, payload, env).err.Some?
    ensures var w := WriteThrough(p, cfg, s, closed, inner, payload, env);
            && (!(0 < cfg.keyRotateInterval <= env.checkedAt - s.created) ==>
                  w.key.id == s.id && w.key.key == s.key && w.key.created == s.created)
            && (0 < cfg.keyRotateInterval <= env.checkedAt - s.created && w.key.id == s.id ==>
                  w.bytes == [] || (env.salt.Some? && w.bytes <= Encode(cfg, Sealed(p, cfg, s, INNER_KEY_UPDATE, env.salt.value))))
  {
    hide SealedFrame, Encode, DeriveRotatedKey;
    var r := RotateAndWrite(p, cfg, s, closed, env);
    if r.err.None? && RotationDue(cfg, s, env.checkedAt) {
      assert NextID(s.id) != s.id;
    }
  }

  /* ------------------------------ over runs ------------------------------ */

  /** The key had reached the age when it was checked. */
  predicate Old(cfg: Config, created: int, at: int) {
    0 < cfg.keyRotateInterval <= at - created
  }

  /** A key update is sealed under the very key that was found old; anything else under the key that
      was checked if that was not found old, and under the next one if it was. */
  predicate InTime(cfg: Config, created: seq<int>, x: Seal) {
    && 0 <= x.check.epoch < |created|
    && (var due := Old(cfg, created[x.check.epoch], x.check.at);
        if x.inner == INNER_KEY_UPDATE then due && x.epoch == x.check.epoch
        else x.epoch == x.check.epoch + (if due then 1 else 0))
  }

  ghost predicate Recorded(cfg: Config, s: Sys) {
    && |s.created| == |s.keys| && |s.rotated| == |s.keys| - 1 && s.created[|s.created| - 1] == s.send.created
    && (forall k :: 0 <= k < |s.rotated| ==> Old(cfg, s.created[k], s.rotated[k]))
    && (forall i :: 0 <= i < |s.seals| ==> InTime(cfg, s.created, s.seals[i]))
  }

  /** What the writer is about to do fits the check that it made. */
  ghost predicate Checks(cfg: Config, s: Sys)
    requires Recorded(cfg, s)
  {
    var newest := |s.keys| - 1;
    && ((s.writer.MustRotate? || s.writer.MustInstall?) ==>
          s.check.epoch == newest && Old(cfg, s.created[newest], s.check.at))
    && (s.writer.Ready? ==>
          && 0 <= s.check.epoch <= newest
          && newest == s.check.epoch + (if Old(cfg, s.created[s.check.epoch], s.check.at) then 1 else 0))
    && (s.writer.Entered? || s.writer.MustRotate? || s.writer.MustInstall? || s.writer.Ready? ==>
          s.writer.inner != INNER_KEY_UPDATE)
  }

  ghost predicate Inv(cfg: Config, s: Sys) {
    Recorded(cfg, s) && Checks(cfg, s)
  }

  lemma TransmitRecords(p: Primitives, cfg: Config, s: Sys, inner: byte, payload: Bytes, fate: Fate)
    requires Recorded(cfg, s)
    requires InTime(cfg, s.created, Seal(|s.keys| - 1, Consume(s.send).count, inner, s.check))
    ensures var t := Transmit(p, cfg, s, inner, payload, fate).0;
            Recorded(cfg, t) && t.created == s.created && t.keys == s.keys && t.check == s.check
  {
    hide FrameOf, Encode;
    TransmitFrame(p, cfg, s, inner, payload, fate);
    var t := Transmit(p, cfg, s, inner, payload, fate).0;
    assert t.seals == s.seals || t.seals == s.seals + [Seal(|s.keys| - 1, Consume(s.send).count, inner, s.check)];
    hide Transmit;
  }

  lemma InstallRecords(p: Primitives, cfg: Config, s: Sys, salt: Bytes, now: int, t: Sys)
    requires Inv(cfg, s) && s.writer.MustInstall?
    requires var next := RotateSend(p, s.send, salt, now);
             t == s.(send := next, keys := s.keys + [next.key], writer := Ready(s.writer.inner, s.writer.payload),
                     created := s.created + [now], rotated := s.rotated + [s.check.at])
    ensures Inv(cfg, t)
  {
    hide DeriveRotatedKey;
    var created := s.created + [now];
    forall i | 0 <= i < |s.seals| ensures InTime(cfg, created, s.seals[i]) {
      assert InTime(cfg, s.created, s.seals[i]);
    }
  }

  /** The writer has moved on, and whatever else there is has stayed. */
  lemma MovedKeeps(cfg: Config, s: Sys, t: Sys)
    requires Recorded(cfg, s)
    requires t.keys == s.keys && t.created == s.created && t.rotated == s.rotated && t.seals == s.seals && t.send == s.send
    ensures Recorded(cfg, t)
  {
  }

  lemma TransmittedKeeps(p: Primitives, cfg: Config, s: Sys, inner: byte, payload: Bytes, fate: Fate, t: Sys)
    requires Inv(cfg, s)
    requires (s.writer.MustRotate? && inner == INNER_KEY_UPDATE) || (s.writer.Ready? && inner == s.writer.inner)
    requires t == Transmit(p, cfg, s, inner, payload, fate).0.(writer := t.writer, written := t.written)
    requires t.writer.Free? || (t.writer.MustInstall? && s.writer.MustRotate? && t.writer.inner == s.writer.inner)
    ensures Inv(cfg, t)
  {
    if s.writer.MustRotate? { UpdateInTime(cfg, s); } else { PayloadInTime(cfg, s); }
    TransmitRecords(p, cfg, s, inner, payload, fate);
    TransmitFrame(p, cfg, s, inner, payload, fate);
    hide Transmit, InTime;
    MovedKeeps(cfg, Transmit(p, cfg, s, inner, payload, fate).0, t);
  }

  lemma CheckKeeps(cfg: Config, s: Sys, now: int, t: Sys)
    requires Inv(cfg, s) && s.writer.Entered?
    requires var inner, payload := s.writer.inner, s.writer.payload;
             t == s.(writer := if RotationDue(cfg, s.send, now) then MustRotate(inner, payload) else Ready(inner, payload),
                     check := Check(|s.keys| - 1, now))
    ensures Inv(cfg, t)
  {
  }

  /** A step that touches none of the history, and leaves the writer with no more to do than it had. */
  lemma QuietKeeps(cfg: Config, s: Sys, t: Sys)
    requires Inv(cfg, s)
    requires t.keys == s.keys && t.created == s.created && t.rotated == s.rotated && t.seals == s.seals && t.send == s.send
    requires t.check == s.check
    requires t.writer == s.writer || t.writer.Free? || (t.writer.Entered? && t.writer.inner != INNER_KEY_UPDATE)
    ensures Inv(cfg, t)
  {
  }

  lemma TakeNextQuiet(p: Primitives, cfg: Config, s: Sys, t: Times)
    requires s.wire != []
    ensures var u := TakeNext(p, cfg, s, t);
            u == s.(recv := u.recv, wire := u.wire, readError := u.readError, delivered := u.delivered)
  {
    hide Receive, FrameOf;
  }

  lemma NextKeeps(p: Primitives, cfg: Config, s: Sys, step: Step)
    requires Inv(cfg, s)
    ensures Inv(cfg, Next(p, cfg, s, step))
  {
    hide Transmit, TakeNext, RotateSend, RotationDue, Inv;
    var t := Next(p, cfg, s, step);
    if step.SendUpdate? && s.writer.MustRotate? && |step.salt| == SALT_SIZE {
      TransmittedKeeps(p, cfg, s, INNER_KEY_UPDATE, step.salt, step.fate, t);
    } else if step.SendPayload? && s.writer.Ready? {
      TransmittedKeeps(p, cfg, s, s.writer.inner, s.writer.payload, step.fate, t);
    } else if step.CheckRotation? && s.writer.Entered? {
      CheckKeeps(cfg, s, step.now, t);
    } else if step.InstallSendKey? && s.writer.MustInstall? {
      InstallRecords(p, cfg, s, s.writer.salt, step.now, t);
    } else {
      if step.ReadNext? && s.wire != [] { TakeNextQuiet(p, cfg, s, step.t); }
      QuietKeeps(cfg, s, t);
    }
  }

  lemma UpdateInTime(cfg: Config, s: Sys)
    requires Inv(cfg, s) && s.writer.MustRotate?
    ensures InTime(cfg, s.created, Seal(|s.keys| - 1, Consume(s.send).count, INNER_KEY_UPDATE, s.check))
  {
  }

  lemma PayloadInTime(cfg: Config, s: Sys)
    requires Inv(cfg, s) && s.writer.Ready?
    ensures InTime(cfg, s.created, Seal(|s.keys| - 1, Consume(s.send).count, s.writer.inner, s.check))
  {
  }

  lemma {:induction false} RunKeeps(p: Primitives, cfg: Config, s: Sys, steps: seq<Step>)
    requires Inv(cfg, s)
    ensures Inv(cfg, Run(p, cfg, s, steps))
  {
    hide Inv, Next;
    if steps != [] {
      RunKeeps(p, cfg, s, steps[..|steps| - 1]);
      NextKeeps(p, cfg, Run(p, cfg, s, steps[..|steps| - 1]), steps[|steps| - 1]);
    }
  }

  /** Over every run and every interleaving: a key is replaced only if it had reached the age at a
      check; and no payload, ping or pong is sealed under a key that had reached it at the check that
      its write began with, but under the next one. */
  lemma RotatedExactlyWhenOld(p: Primitives, cfg: Config, key: Bytes, now: int, steps: seq<Step>)
    ensures var s := Run(p, cfg, Init(key, now), steps);
            && |s.created| == |s.keys| && |s.rotated| == |s.keys| - 1
            && (|s.keys| > 1 ==> cfg.keyRotateInterval > 0)
            && (forall k :: 0 <= k < |s.keys| - 1 ==> s.rotated[k] - s.created[k] >= cfg.keyRotateInterval)
            && (forall i :: 0 <= i < |s.seals| && s.seals[i].inner != INNER_KEY_UPDATE ==>
                  var x := s.seals[i];
                  && 0 <= x.check.epoch < |s.created|
                  && x.epoch == x.check.epoch + (if 0 < cfg.keyRotateInterval <= x.check.at - s.created[x.check.epoch] then 1 else 0))
  {
    assert Inv(cfg, Init(key, now));
    RunKeeps(p, cfg, Init(key, now), steps);
    var s := Run(p, cfg, Init(key, now), steps);
    hide Run, Inv;
    RecordedFacts(cfg, s);
  }

  lemma RecordedFacts(cfg: Config, s: Sys)
    requires Inv(cfg, s)
    ensures |s.created| == |s.keys| && |s.rotated| == |s.keys| - 1
    ensures |s.keys| > 1 ==> cfg.keyRotateInterval > 0
    ensures forall k :: 0 <= k < |s.keys| - 1 ==> s.rotated[k] - s.created[k] >= cfg.keyRotateInterval
    ensures forall i :: 0 <= i < |s.seals| && s.seals[i].inner != INNER_KEY_UPDATE ==>
              var x := s.seals[i];
              && 0 <= x.check.epoch < |s.created|
              && x.epoch == x.check.epoch + (if 0 < cfg.keyRotateInterval <= x.check.at - s.created[x.check.epoch] then 1 else 0)
  {
    if |s.keys| > 1 {
      assert Old(cfg, s.created[0], s.rotated[0]);
    }
    forall k | 0 <= k < |s.keys| - 1 ensures s.rotated[k] - s.created[k] >= cfg.keyRotateInterval {
      assert Old(cfg, s.created[k], s.rotated[k]);
    }
    forall i | 0 <= i < |s.seals| ensures InTime(cfg, s.created, s.seals[i]) {
    }
  }
}
