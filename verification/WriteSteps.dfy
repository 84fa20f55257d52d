/** One call of Write, on every outcome, is the step system's write steps one after the other. */
module WriteSteps {
  import opened Bytes
  import opened Crypto
  import opened Frames
  import opened SecureSpec
  import opened SecureConns
  import opened Delivery

  /** The frame that the next seal makes. */
  function NextFrame(p: Primitives, cfg: Config, key: SendKey, inner: byte, payload: Bytes): Frame {
    SealedFrame(p, cfg, key.id, key.key, Consume(key).count, inner, payload)
  }

  /** What becomes of a frame of which the transport takes so many bytes. */
  function FateOf(cfg: Config, f: Frame, taken: nat): Fate {
    if taken >= |Encode(cfg, f)| then Taken else if taken == 0 then Lost else Torn
  }

  /** The bytes are those of the items: whole frames, and for each garbled one some bytes. */
  ghost predicate Carries(p: Primitives, cfg: Config, items: seq<Item>, bytes: Bytes) {
    if items == [] then bytes == []
    else
      exists k: nat :: k <= |bytes| && IsItem(p, cfg, items[0], bytes[..k]) && Carries(p, cfg, items[1..], bytes[k..])
  }

  predicate IsItem(p: Primitives, cfg: Config, item: Item, bytes: Bytes) {
    match item
    case Whole(sent) => bytes == Encode(cfg, FrameOf(p, cfg, sent))
    case Garbled => bytes != []
  }

  lemma CarriesOne(p: Primitives, cfg: Config, item: Item, bytes: Bytes, items: seq<Item>, more: Bytes)
    requires IsItem(p, cfg, item, bytes) && Carries(p, cfg, items, more)
    ensures Carries(p, cfg, [item] + items, bytes + more)
  {
    assert ([item] + items)[1..] == items;
    assert (bytes + more)[..|bytes|] == bytes && (bytes + more)[|bytes|..] == more;
  }

  /** Sealing and writing one frame: the object's way and the step system's come to the same. */
  lemma TransmitIsSeal(p: Primitives, cfg: Config, s: Sys, inner: byte, payload: Bytes, taken: nat)
    returns (items: seq<Item>)
    ensures var w := SealAndWrite(p, cfg, s.send, s.closed, inner, payload, taken);
            var (t, ok) := Transmit(p, cfg, s, inner, payload, FateOf(cfg, NextFrame(p, cfg, s.send, inner, payload), taken));
            && t.send == w.key && (ok <==> w.err.None?)
            && t == s.(send := t.send, wire := s.wire + items, seals := t.seals, garbled := t.garbled)
            && |items| <= 1 && (if items == [] then w.bytes == [] else IsItem(p, cfg, items[0], w.bytes))
  {
    hide SealedFrame;
    var f := NextFrame(p, cfg, s.send, inner, payload);
    var fate := FateOf(cfg, f, taken);
    var sent := Sent(s.send.id, s.send.key, Consume(s.send).count, inner, payload);
    assert FrameOf(p, cfg, sent) == f;
    items := if s.closed || !AesKey(s.send.key) || !Writable(cfg, f) || fate.Lost? then []
             else if fate.Torn? || |f.payload| >= U32_LIMIT then [Garbled] else [Whole(sent)];
    assert s.wire + [] == s.wire;
  }

  /** The write's steps up to the rotation that is due. */
  ghost function RotateSteps(p: Primitives, cfg: Config, s: Sys, inner: byte, payload: Bytes, env: WriteEnv): Sys {
    var s2 := Next(p, cfg, Next(p, cfg, s, Enter(inner, payload)), CheckRotation(env.checkedAt));
    var s3 := match env.salt
              case None => Next(p, cfg, s2, RandomFails)
              case Some(salt) =>
                var f := NextFrame(p, cfg, s.send, INNER_KEY_UPDATE, salt);
                Next(p, cfg, s2, SendUpdate(salt, FateOf(cfg, f, env.updateTaken)));
    Next(p, cfg, s3, InstallSendKey(env.createdAt))
  }

  /** All steps of a write; those that its outcome does not call for do nothing. */
  ghost function WriteSteps(p: Primitives, cfg: Config, s: Sys, inner: byte, payload: Bytes, env: WriteEnv): Sys {
    var s4 := RotateSteps(p, cfg, s, inner, payload, env);
    Next(p, cfg, s4, SendPayload(FateOf(cfg, NextFrame(p, cfg, s4.send, inner, payload), env.dataTaken)))
  }

  function Checked(cfg: Config, s: Sys, inner: byte, payload: Bytes, now: int): Sys {
    s.(writer := if RotationDue(cfg, s.send, now) then MustRotate(inner, payload) else Ready(inner, payload),
       check := Check(|s.keys| - 1, now))
  }

  lemma EnterSteps(p: Primitives, cfg: Config, s: Sys, inner: byte, payload: Bytes, now: int)
    requires s.writer.Free? && (inner == INNER_DATA || inner == INNER_PING || inner == INNER_PONG)
    ensures Next(p, cfg, Next(p, cfg, s, Enter(inner, payload)), CheckRotation(now))
         == Checked(cfg, s, inner, payload, now)
  {
  }

  /** Without a rotation, its steps do nothing. */
  lemma NoRotation(p: Primitives, cfg: Config, s: Sys, salt: Bytes, fate: Fate, now: int)
    ensures s.writer.Ready? ==> Next(p, cfg, s, SendUpdate(salt, fate)) == s && Next(p, cfg, s, RandomFails) == s
    ensures s.writer.Ready? || s.writer.Free? ==> Next(p, cfg, s, InstallSendKey(now)) == s
    ensures s.writer.MustRotate? ==> Next(p, cfg, s, RandomFails) == s.(writer := Free)
  {
  }

  lemma UpdateSteps(p: Primitives, cfg: Config, s: Sys, salt: Bytes, env: WriteEnv) returns (items: seq<Item>)
    requires s.writer.MustRotate? && |salt| == SALT_SIZE && env.salt == Some(salt)
    requires RotationDue(cfg, s.send, env.checkedAt)
    ensures var fate := FateOf(cfg, NextFrame(p, cfg, s.send, INNER_KEY_UPDATE, salt), env.updateTaken);
            var t := Next(p, cfg, Next(p, cfg, s, SendUpdate(salt, fate)), InstallSendKey(env.createdAt));
            var w := RotateAndWrite(p, cfg, s.send, s.closed, env);
            && t.send == w.key && t.writer == (if w.err.None? then Ready(s.writer.inner, s.writer.payload) else Free)
            && t == s.(send := t.send, writer := t.writer, wire := s.wire + items, seals := t.seals, keys := t.keys,
                       garbled := t.garbled, check := t.check, created := t.created, rotated := t.rotated)
            && |items| <= 1 && (if items == [] then w.bytes == [] else IsItem(p, cfg, items[0], w.bytes))
  {
    var fate := FateOf(cfg, NextFrame(p, cfg, s.send, INNER_KEY_UPDATE, salt), env.updateTaken);
    items := TransmitIsSeal(p, cfg, s, INNER_KEY_UPDATE, salt, env.updateTaken);
    TransmitFrame(p, cfg, s, INNER_KEY_UPDATE, salt, fate);
    hide Transmit, SealAndWrite, DeriveRotatedKey, FateOf, NextFrame, IsItem;
    var (after, ok) := Transmit(p, cfg, s, INNER_KEY_UPDATE, salt, fate);
    var sent := after.(writer := if ok then MustInstall(salt, s.writer.inner, s.writer.payload) else Free);
    assert Next(p, cfg, s, SendUpdate(salt, fate)) == sent;
    if !ok {
      NoRotation(p, cfg, sent, salt, fate, env.createdAt);
    } else {
      assert RotateSend(p, sent.send, salt, env.createdAt) == RotateSend(p, s.send, salt, env.createdAt);
    }
  }

  lemma RotateStepsRotate(p: Primitives, cfg: Config, s: Sys, inner: byte, payload: Bytes, env: WriteEnv)
    returns (items: seq<Item>)
    requires s.writer.Free? && (inner == INNER_DATA || inner == INNER_PING || inner == INNER_PONG)
    requires env.salt.Some? ==> |env.salt.value| == SALT_SIZE
    ensures var w := RotateAndWrite(p, cfg, s.send, s.closed, env);
            var t := RotateSteps(p, cfg, s, inner, payload, env);
            && t.send == w.key && t.writer == (if w.err.None? then Ready(inner, payload) else Free)
            && t == s.(send := t.send, writer := t.writer, wire := s.wire + items, seals := t.seals, keys := t.keys,
                       garbled := t.garbled, check := t.check, created := t.created, rotated := t.rotated)
            && |items| <= 1 && (if items == [] then w.bytes == [] else IsItem(p, cfg, items[0], w.bytes))
  {
    hide Next, FateOf, NextFrame, IsItem, SealAndWrite, RotateSend;
    EnterSteps(p, cfg, s, inner, payload, env.checkedAt);
    items := [];
    assert s.wire + [] == s.wire;
    var checked := Checked(cfg, s, inner, payload, env.checkedAt);
    if RotationDue(cfg, s.send, env.checkedAt) && env.salt.Some? {
      items := UpdateSteps(p, cfg, checked, env.salt.value, env);
    } else if RotationDue(cfg, s.send, env.checkedAt) {
      NoRotation(p, cfg, checked, [], Lost, env.createdAt);
      NoRotation(p, cfg, checked.(writer := Free), [], Lost, env.createdAt);
    } else {
      var salt := if env.salt.Some? then env.salt.value else [];
      var fate := FateOf(cfg, NextFrame(p, cfg, s.send, INNER_KEY_UPDATE, salt), env.updateTaken);
      NoRotation(p, cfg, checked, salt, fate, env.createdAt);
    }
  }

  /** The items of both frames stand for the bytes of both. */
  lemma CarriesBoth(p: Primitives, cfg: Config, first: seq<Item>, a: Bytes, second: seq<Item>, b: Bytes)
    requires |first| <= 1 && (if first == [] then a == [] else IsItem(p, cfg, first[0], a))
    requires |second| <= 1 && (if second == [] then b == [] else IsItem(p, cfg, second[0], b))
    ensures Carries(p, cfg, first + second, a + b)
  {
    hide IsItem;
    if second != [] {
      CarriesOne(p, cfg, second[0], b, [], []);
      assert [second[0]] + [] == second && b + [] == b;
    }
    if first != [] {
      CarriesOne(p, cfg, first[0], a, second, b);
      assert [first[0]] + second == first + second;
    } else {
      assert first + second == second && a + b == b;
    }
  }

  lemma SendStep(p: Primitives, cfg: Config, s: Sys, fate: Fate)
    ensures s.writer.Free? ==> Next(p, cfg, s, SendPayload(fate)) == s
    ensures s.writer.Ready? ==>
              var (after, ok) := Transmit(p, cfg, s, s.writer.inner, s.writer.payload, fate);
              Next(p, cfg, s, SendPayload(fate))
              == after.(writer := Free,
                        written := if ok && s.writer.inner == INNER_DATA then s.written + [s.writer.payload] else s.written)
  {
    hide Transmit;
    if s.writer.Ready? {
      TransmitFrame(p, cfg, s, s.writer.inner, s.writer.payload, fate);
    }
  }

  /** A call of the connection's write from a state in which nobody holds the write lock, on every
      outcome (refused, failed, cut short, rotated or not), is a run of the step system: it ends
      with the same send key, puts items on the wire that stand for the same bytes, and counts the
      payload as written exactly if the call reports success. */
  lemma WriteIsSteps(p: Primitives, cfg: Config, s: Sys, inner: byte, payload: Bytes, env: WriteEnv)
    returns (items: seq<Item>)
    requires s.writer.Free? && (inner == INNER_DATA || inner == INNER_PING || inner == INNER_PONG)
    requires env.salt.Some? ==> |env.salt.value| == SALT_SIZE
    ensures var w := WriteThrough(p, cfg, s.send, s.closed, inner, payload, env);
            var t := WriteSteps(p, cfg, s, inner, payload, env);
            && t.send == w.key && t.writer.Free?
            && t.wire == s.wire + items && Carries(p, cfg, items, w.bytes)
            && t.written == s.written + (if w.err.None? && inner == INNER_DATA then [payload] else [])
            && t.recv == s.recv && t.delivered == s.delivered && t.readError == s.readError && t.closed == s.closed
  {
    hide Transmit, SealAndWrite, RotateAndWrite, RotateSteps, Next, FateOf, NextFrame, IsItem, Carries;
    var first := RotateStepsRotate(p, cfg, s, inner, payload, env);
    var mid := RotateSteps(p, cfg, s, inner, payload, env);
    var fate := FateOf(cfg, NextFrame(p, cfg, mid.send, inner, payload), env.dataTaken);
    var w1 := RotateAndWrite(p, cfg, s.send, s.closed, env);
    SendStep(p, cfg, mid, fate);
    if w1.err.Some? {
      items := first;
      CarriesBoth(p, cfg, first, w1.bytes, [], []);
      assert w1.bytes + [] == w1.bytes && first + [] == first;
    } else {
      var second := TransmitIsSeal(p, cfg, mid, inner, payload, env.dataTaken);
      items := first + second;
      CarriesBoth(p, cfg, first, w1.bytes, second, SealAndWrite(p, cfg, mid.send, mid.closed, inner, payload, env.dataTaken).bytes);
      assert s.wire + items == mid.wire + second;
    }
  }
}
