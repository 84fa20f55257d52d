/** The encrypted connection as an object: key states that its methods update in place. */
module SecureConns {
  import opened Bytes
  import opened Crypto
  import opened Frames
  import opened Replay
  import opened SecureSpec

  class KeyState {
    const id: u32
    const key: Bytes
    const created: int
    var expires: int
    var count: u64
    const replay: ReplayWindow

    constructor (id: u32, key: Bytes, created: int, window: u64)
      ensures this.id == id && this.key == key && this.created == created
      ensures expires == 0 && count == 0
      ensures replay.Valid() && fresh(replay) && replay.accepted == {}
      ensures replay.size == EffectiveSize(window)
    {
      this.id, this.key, this.created := id, key, created;
      expires, count := 0, 0;
      replay := new ReplayWindow(window);
    }

    ghost function SendView(): SendKey
      reads this
    {
      SendKey(id, key, created, count)
    }

    ghost function RecvView(): RecvKey
      reads this, replay
    {
      RecvKey(id, key, expires, replay.accepted)
    }
  }

  /** What the environment does during one write: clock readings, the random salt (None when the
      generator fails), and how many bytes the transport takes of each frame. */
  datatype WriteEnv = WriteEnv(
    checkedAt: int,
    salt: Option<Bytes>,
    updateTaken: nat,
    createdAt: int,
    dataTaken: nat)

  /** The effect of one seal-and-write on the sender: its key, the bytes put on the wire, and the
      error. A frame that is refused or cut short still uses up its number. */
  datatype Sealing = Sealing(key: SendKey, bytes: Bytes, err: Option<Error>)

  function SealAndWrite(p: Primitives, cfg: Config, s: SendKey, closed: bool, inner: byte, payload: Bytes, taken: nat): Sealing {
    if closed then Sealing(s, [], Some(Closed))
    else
      var used := Consume(s);
      if !AesKey(s.key) then Sealing(used, [], Some(BadKey))
      else
        var f := SealedFrame(p, cfg, s.id, s.key, used.count, inner, payload);
        if !Writable(cfg, f) then Sealing(used, [], Some(FrameTooLarge))
        else if taken < |Encode(cfg, f)| then Sealing(used, Encode(cfg, f)[..taken], Some(WriteFailed))
        else Sealing(used, Encode(cfg, f), None)
  }

  function RotateAndWrite(p: Primitives, cfg: Config, s: SendKey, closed: bool, env: WriteEnv): Sealing {
    if !RotationDue(cfg, s, env.checkedAt) then Sealing(s, [], None)
    else if env.salt.None? then Sealing(s, [], Some(RandomFailed))
    else
      var update := SealAndWrite(p, cfg, s, closed, INNER_KEY_UPDATE, env.salt.value, env.updateTaken);
      if update.err.Some? then update
      else update.(key := RotateSend(p, s, env.salt.value, env.createdAt))
  }

  function WriteThrough(p: Primitives, cfg: Config, s: SendKey, closed: bool, inner: byte, payload: Bytes, env: WriteEnv): Sealing {
    var rotation := RotateAndWrite(p, cfg, s, closed, env);
    if rotation.err.Some? then rotation
    else
      var data := SealAndWrite(p, cfg, rotation.key, closed, inner, payload, env.dataTaken);
      data.(bytes := rotation.bytes + data.bytes)
  }

  lemma KeyAfterWrite(p: Primitives, cfg: Config, s: SendKey, closed: bool, inner: byte, payload: Bytes, env: WriteEnv)
    ensures var w := WriteThrough(p, cfg, s, closed, inner, payload, env);
            var rotates := 0 < cfg.keyRotateInterval <= env.checkedAt - s.created;
            && (!rotates ==> w.key.id == s.id && w.key.key == s.key)
            && (rotates && w.err.None? ==>
                  && w.key.id == (s.id + 1) % U32_LIMIT && w.key.count == 1
                  && env.salt.Some? && w.key.key == DeriveRotatedKey(p, s.key, env.salt.value))
  {
    hide SealedFrame, Encode, DeriveRotatedKey;
  }

  class SecureConn {
    const conn: Conn
    const cfg: Config
    const p: Primitives
    var sendKey: KeyState
    var recvKey: KeyState
    var oldRecv: KeyState?
    var closed: bool

    ghost predicate Valid()
      reads this, recvKey, recvKey.replay, oldRecv, if oldRecv != null then {oldRecv.replay} else {}
    {
      && sendKey != recvKey && sendKey != oldRecv && recvKey != oldRecv
      && recvKey.replay.Valid() && recvKey.replay.size == EffectiveSize(cfg.replayWindow)
      && (oldRecv != null ==>
            && oldRecv.replay != recvKey.replay
            && oldRecv.replay.Valid() && oldRecv.replay.size == EffectiveSize(cfg.replayWindow))
    }

    ghost function SendView(): SendKey
      reads this, sendKey
    {
      sendKey.SendView()
    }

    ghost function RecvView(): RecvState
      reads this, recvKey, recvKey.replay, oldRecv, if oldRecv != null then {oldRecv.replay} else {}
    {
      RecvState(recvKey.RecvView(), if oldRecv == null then None else Some(oldRecv.RecvView()))
    }

    constructor (conn: Conn, cfg: Config, p: Primitives, sendKey: Bytes, recvKey: Bytes, now: int)
      ensures Valid() && !closed
      ensures this.conn == conn && this.cfg == cfg && this.p == p
      ensures SendView() == SendKey(1, sendKey, now, 0)
      ensures RecvView() == RecvState(RecvKey(1, recvKey, 0, {}), None)
    {
      this.conn, this.cfg, this.p := conn, cfg, p;
      this.sendKey := new KeyState(1, sendKey, now, cfg.replayWindow);
      this.recvKey := new KeyState(1, recvKey, now, cfg.replayWindow);
      oldRecv := null;
      closed := false;
    }

    method Close()
      modifies `closed, conn`closed, conn`incoming
      ensures closed && conn.closed && conn.incoming == []
    {
      closed := true;
      conn.Close();
    }

    /* ------------------------------ writing ------------------------------ */

    method EncryptAndWriteLockedNoRotate(inner: byte, payload: Bytes, taken: nat) returns (err: Option<Error>)
      modifies sendKey`count, conn`outgoing
      ensures old(conn.outgoing) <= conn.outgoing
      ensures Sealing(SendView(), conn.outgoing[|old(conn.outgoing)|..], err) ==
              SealAndWrite(p, cfg, old(SendView()), closed, inner, payload, taken)
    {
      if closed {
        return Some(Closed);
      }
      sendKey.count := (sendKey.count + 1) % U64_LIMIT;
      if !AesKey(sendKey.key) {
        return Some(BadKey);
      }
      var f := SealedFrame(p, cfg, sendKey.id, sendKey.key, sendKey.count, inner, payload);
      err := WriteFrame(conn, cfg, f, taken);
    }

    method RotateSendKeyIfNeededLocked(env: WriteEnv) returns (err: Option<Error>)
      requires Valid()
      modifies `sendKey, sendKey`count, conn`outgoing
      ensures Valid() && (sendKey == old(sendKey) || fresh(sendKey))
      ensures old(conn.outgoing) <= conn.outgoing
      ensures Sealing(SendView(), conn.outgoing[|old(conn.outgoing)|..], err) ==
              RotateAndWrite(p, cfg, old(SendView()), closed, env)
      ensures RecvView() == old(RecvView())
    {
      if cfg.keyRotateInterval <= 0 || env.checkedAt - sendKey.created < cfg.keyRotateInterval {
        return None;
      }
      if env.salt.None? {
        return Some(RandomFailed);
      }
      var current := sendKey;
      err := EncryptAndWriteLockedNoRotate(INNER_KEY_UPDATE, env.salt.value, env.updateTaken);
      if err.Some? {
        return;
      }
      sendKey := new KeyState(NextID(current.id), DeriveRotatedKey(p, current.key, env.salt.value),
                              env.createdAt, cfg.replayWindow);
    }

    /** One write under the write lock: the key rotation that is due, then the frame itself. */
    method WriteInner(inner: byte, payload: Bytes, env: WriteEnv) returns (err: Option<Error>)
      requires Valid()
      modifies `sendKey, sendKey`count, conn`outgoing
      ensures Valid() && (sendKey == old(sendKey) || fresh(sendKey))
      ensures old(conn.outgoing) <= conn.outgoing
      ensures Sealing(SendView(), conn.outgoing[|old(conn.outgoing)|..], err) ==
              WriteThrough(p, cfg, old(SendView()), closed, inner, payload, env)
      ensures RecvView() == old(RecvView())
    {
      hide SealAndWrite, RotateAndWrite, ReplayWindow.Valid;
      ghost var before := conn.outgoing;
      err := RotateSendKeyIfNeededLocked(env);
      if err.Some? {
        return;
      }
      ghost var between := conn.outgoing;
      err := EncryptAndWriteLockedNoRotate(inner, payload, env.dataTaken);
      assert conn.outgoing[|before|..] == between[|before|..] + conn.outgoing[|between|..];
    }

    method Write(payload: Bytes, env: WriteEnv) returns (err: Option<Error>)
      requires Valid()
      modifies `sendKey, sendKey`count, conn`outgoing
      ensures Valid() && RecvView() == old(RecvView())
      ensures var w := WriteThrough(p, cfg, old(SendView()), closed, INNER_DATA, payload, env);
              SendView() == w.key && conn.outgoing == old(conn.outgoing) + w.bytes && err == w.err
      ensures var rotates := 0 < cfg.keyRotateInterval <= env.checkedAt - old(SendView()).created;
              && (!rotates ==> SendView().id == old(SendView()).id && SendView().key == old(SendView()).key)
              && (rotates && err.None? ==>
                    && SendView().id == (old(SendView()).id + 1) % U32_LIMIT && SendView().count == 1
                    && env.salt.Some? && SendView().key == DeriveRotatedKey(p, old(SendView()).key, env.salt.value))
    {
      hide WriteThrough, DeriveRotatedKey;
      KeyAfterWrite(p, cfg, SendView(), closed, INNER_DATA, payload, env);
      err := WriteInner(INNER_DATA, payload, env);
    }

    method SendPong(env: WriteEnv) returns (err: Option<Error>)
      requires Valid()
      modifies `sendKey, sendKey`count, conn`outgoing
      ensures Valid() && RecvView() == old(RecvView()) && (sendKey == old(sendKey) || fresh(sendKey))
      ensures var w := WriteThrough(p, cfg, old(SendView()), closed, INNER_PONG, [], env);
              SendView() == w.key && conn.outgoing == old(conn.outgoing) + w.bytes && err == w.err
    {
      hide WriteThrough;
      err := WriteInner(INNER_PONG, [], env);
    }

    /* ------------------------------ reading ------------------------------ */

    /** The key state that a key id names at a moment, if any. */
    method Lookup(keyID: u32, now: int) returns (ks: KeyState?)
      requires Valid()
      ensures match Find(RecvView(), keyID, now)
              case None => ks == null
              case Some(Current) => ks == recvKey
              case Some(Previous) => ks != null && ks == oldRecv
    {
      if recvKey.id == keyID {
        return recvKey;
      }
      if oldRecv != null && oldRecv.id == keyID && now < oldRecv.expires {
        return oldRecv;
      }
      return null;
    }

    method MarkReplayOK(keyID: u32, n: u64, now: int) returns (ok: bool)
      requires Valid()
      modifies recvKey.replay, if oldRecv != null then {oldRecv.replay} else {}
      ensures Valid()
      ensures match Find(old(RecvView()), keyID, now)
              case None => !ok && RecvView() == old(RecvView())
              case Some(w) =>
                && ok == Accepts(KeyOf(old(RecvView()), w).accepted, EffectiveSize(cfg.replayWindow), n)
                && RecvView() == if ok then Mark(old(RecvView()), w, n) else old(RecvView())
    {
      var ks := Lookup(keyID, now);
      if ks == null {
        return false;
      }
      ok := ks.replay.Accept(n);
    }

    method InstallRecvKey(fromKeyID: u32, salt: Bytes, now: int) returns (ok: bool)
      requires Valid()
      modifies `recvKey, `oldRecv, recvKey`expires
      ensures Valid()
      ensures ok <==> old(recvKey).id == fromKeyID
      ensures RecvView() == if ok then Install(p, cfg, old(RecvView()), salt, now) else old(RecvView())
      ensures ok ==> oldRecv == old(recvKey) && fresh(recvKey) && fresh(recvKey.replay)
      ensures !ok ==> recvKey == old(recvKey) && oldRecv == old(oldRecv)
    {
      if recvKey.id != fromKeyID {
        return false;
      }
      var demoted := recvKey;
      demoted.expires := now + cfg.oldKeyGrace;
      oldRecv := demoted;
      recvKey := new KeyState(NextID(fromKeyID), DeriveRotatedKey(p, demoted.key, salt), now, cfg.replayWindow);
      return true;
    }

    /** One pass over a frame that has arrived. */
    method HandleFrame(f: Frame, t: Times) returns (got: Received)
      requires Valid()
      modifies `recvKey, `oldRecv, recvKey`expires, recvKey.replay,
               if oldRecv != null then {oldRecv.replay} else {}
      ensures Valid()
      ensures (RecvView(), got) == Receive(p, cfg, old(RecvView()), f, t)
      ensures recvKey == old(recvKey) || (oldRecv == old(recvKey) && fresh(recvKey) && fresh(recvKey.replay))
      ensures recvKey == old(recvKey) ==> oldRecv == old(oldRecv)
      ensures sendKey == old(sendKey) && SendView() == old(SendView())
    {
      if f.ftype == FRAME_CLOSE {
        return Rejected(Closed);
      }
      if f.ftype != FRAME_ENCRYPTED || |f.payload| < 12 {
        return Rejected(BadFrame);
      }
      Widths();
      var keyID: u32, n: u64 := FromBE(f.payload[0..4]), FromBE(f.payload[4..12]);
      var ks := Lookup(keyID, t.lookup);
      if ks == null {
        return Rejected(BadFrame);
      }
      if !AesKey(ks.key) {
        return Rejected(BadKey);
      }
      var decrypted := p.open(ks.key, SeqNonce(n), f.payload[12..], EncryptedAAD(cfg, keyID, n));
      if decrypted.None? {
        return Rejected(OpenFailed);
      }
      var plain := decrypted.value;
      if plain == [] {
        return Rejected(BadFrame);
      }
      var isNew := MarkReplayOK(keyID, n, t.replay);
      if !isNew {
        return Rejected(Replayed);
      }
      if plain[0] != INNER_KEY_UPDATE {
        return Opened(plain[0], plain[1..]);
      }
      if |plain[1..]| != SALT_SIZE {
        return Rejected(BadFrame);
      }
      var installed := InstallRecvKey(keyID, plain[1..], t.install);
      if !installed {
        return Rejected(BadFrame);
      }
      return KeyUpdated;
    }

    /** Reads frames until one that is not a key update, or an error. */
    method ReadInner(clock: nat -> Times) returns (got: Received)
      requires Valid()
      modifies `recvKey, `oldRecv, recvKey`expires, recvKey.replay,
               if oldRecv != null then {oldRecv.replay} else {}, conn`incoming
      ensures Valid()
      ensures var (after, parsed, result) :=
                ReadStream(p, cfg, old(RecvView()), Flatten(old(conn.incoming)), clock, 0);
              RecvView() == after && Flatten(conn.incoming) == parsed.rest && got == result
      ensures recvKey == old(recvKey) || (fresh(recvKey) && fresh(recvKey.replay))
      ensures oldRecv == old(oldRecv) || oldRecv == old(recvKey) || (fresh(oldRecv) && fresh(oldRecv.replay))
      ensures sendKey == old(sendKey) && SendView() == old(SendView())
    {
      hide Receive, Parse, ReplayWindow.Valid;
      var i: nat := 0;
      while true
        invariant Valid()
        invariant ReadStream(p, cfg, old(RecvView()), Flatten(old(conn.incoming)), clock, 0) ==
                  ReadStream(p, cfg, RecvView(), Flatten(conn.incoming), clock, i)
        invariant recvKey == old(recvKey) || (fresh(recvKey) && fresh(recvKey.replay))
        invariant oldRecv == old(oldRecv) || oldRecv == old(recvKey) || (fresh(oldRecv) && fresh(oldRecv.replay))
        invariant recvKey == old(recvKey) ==> oldRecv == old(oldRecv)
        invariant sendKey == old(sendKey) && SendView() == old(SendView())
        decreases |Flatten(conn.incoming)|
      {
        var frame := ReadFrame(conn, cfg);
        if frame.Err? {
          return Rejected(frame.error);
        }
        got := HandleFrame(frame.value, clock(i));
        if !got.KeyUpdated? {
          return;
        }
        i := i + 1;
      }
    }

    /** Reads the next payload, answering pings and dropping pongs on the way. The j-th pass
        through the loop reads the clocks clocks(j) and answers under envs(j). */
    method Read(clocks: nat -> nat -> Times, envs: nat -> WriteEnv) returns (r: Result<Bytes, Error>)
      requires Valid()
      modifies `recvKey, `oldRecv, recvKey`expires, recvKey.replay,
               if oldRecv != null then {oldRecv.replay} else {}, conn`incoming,
               `sendKey, sendKey`count, conn`outgoing
      ensures Valid()
      ensures var after := ReadPayload(p, cfg, old(RecvView()), old(SendView()), closed,
                                       Flatten(old(conn.incoming)), old(conn.outgoing), clocks, envs, 0);
              && RecvView() == after.recv && SendView() == after.send
              && Flatten(conn.incoming) == after.rest
              && conn.outgoing == after.out
              && r == after.result
    {
      hide ReadStream, WriteThrough, Flatten, ReplayWindow.Valid, KeyState.SendView, KeyState.RecvView;
      var j: nat := 0;
      while true
        invariant Valid() && closed == old(closed)
        invariant ReadPayload(p, cfg, old(RecvView()), old(SendView()), closed,
                              Flatten(old(conn.incoming)), old(conn.outgoing), clocks, envs, 0) ==
                  ReadPayload(p, cfg, RecvView(), SendView(), closed,
                              Flatten(conn.incoming), conn.outgoing, clocks, envs, j)
        invariant recvKey == old(recvKey) || (fresh(recvKey) && fresh(recvKey.replay))
        invariant oldRecv == old(oldRecv) || oldRecv == old(recvKey) || (fresh(oldRecv) && fresh(oldRecv.replay))
        invariant sendKey == old(sendKey) || fresh(sendKey)
        decreases |Flatten(conn.incoming)|
      {
        var got := ReadInner(clocks(j));
        if got.Rejected? {
          return Err(got.error);
        }
        if got.inner == INNER_DATA {
          return Ok(got.payload);
        }
        if got.inner == INNER_PING {
          var _ := SendPong(envs(j));
        } else if got.inner != INNER_PONG && got.inner != INNER_KEY_UPDATE {
          return Err(BadFrame);
        }
        j := j + 1;
      }
    }
  }

  /** What one call of Read does: to the receiver, to the sender that answers pings, and to the
      incoming and outgoing streams. */
  datatype Reading = Reading(recv: RecvState, send: SendKey, rest: Bytes, out: Bytes, result: Result<Bytes, Error>)

  ghost function ReadPayload(p: Primitives, cfg: Config, r: RecvState, s: SendKey, closed: bool,
                             stream: Bytes, out: Bytes,
                             clocks: nat -> nat -> Times, envs: nat -> WriteEnv, j: nat): Reading
    decreases |stream|
  {
    var (next, parsed, got) := ReadStream(p, cfg, r, stream, clocks(j), 0);
    match got
    case Rejected(e) => Reading(next, s, parsed.rest, out, Err(e))
    case Opened(inner, payload) =>
      if inner == INNER_DATA then Reading(next, s, parsed.rest, out, Ok(payload))
      else if inner == INNER_PING then
        var pong := WriteThrough(p, cfg, s, closed, INNER_PONG, [], envs(j));
        ReadPayload(p, cfg, next, pong.key, closed, parsed.rest, out + pong.bytes, clocks, envs, j + 1)
      else if inner == INNER_PONG || inner == INNER_KEY_UPDATE then
        ReadPayload(p, cfg, next, s, closed, parsed.rest, out, clocks, envs, j + 1)
      else Reading(next, s, parsed.rest, out, Err(BadFrame))
  }
}
