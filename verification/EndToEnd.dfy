/** From an application payload on one side to the same payload on the other, through every layer
    of encoding: type byte, inner type, seal, header, frame, stream. */
module EndToEnd {
  import opened Bytes
  import opened Crypto
  import opened Frames
  import opened SecureSpec
  import opened SecureConns
  import opened Delivery
  import opened Protocol
  import Handshakes

  /** The bytes of the frames in flight. */
  function StreamOf(p: Primitives, cfg: Config, wire: seq<Item>): Bytes
    requires Garbled !in wire
  {
    if wire == [] then [] else Encode(cfg, FrameOf(p, cfg, wire[0].sent)) + StreamOf(p, cfg, wire[1..])
  }

  predicate AllFit(p: Primitives, cfg: Config, wire: seq<Item>)
    requires Garbled !in wire
  {
    wire == [] || (Fits(cfg, FrameOf(p, cfg, wire[0].sent)) && AllFit(p, cfg, wire[1..]))
  }

  predicate IsSuffix(rest: seq<Item>, wire: seq<Item>) {
    |rest| <= |wire| && rest == wire[|wire| - |rest|..]
  }

  /** The wire ends with an application payload. */
  predicate EndsWithData(wire: seq<Item>) {
    wire != [] && wire[|wire| - 1].Whole? && wire[|wire| - 1].sent.inner == INNER_DATA
  }

  lemma {:induction false} EndPending(wire: seq<Item>)
    requires Garbled !in wire && EndsWithData(wire)
    ensures Pending(wire) != []
  {
    if |wire| > 1 {
      EndPending(wire[1..]);
    }
  }

  /** The part of the wire behind the first frame that is not a key update. */
  function BehindFirst(wire: seq<Item>): seq<Item>
    requires Garbled !in wire
    ensures Garbled !in BehindFirst(wire)
    ensures wire != [] ==> |BehindFirst(wire)| < |wire|
    ensures IsSuffix(BehindFirst(wire), wire)
  {
    if wire == [] then []
    else if wire[0].sent.inner == INNER_KEY_UPDATE then BehindFirst(wire[1..])
    else wire[1..]
  }

  function First(wire: seq<Item>): Option<Sent>
    requires Garbled !in wire
  {
    if wire == [] then None
    else if wire[0].sent.inner == INNER_KEY_UPDATE then First(wire[1..])
    else Some(wire[0].sent)
  }

  /** Reading the bytes of a linked wire yields its first frame that is not a key update, follows
      the key updates before it, and consumes exactly those frames' bytes. */
  lemma {:induction false} ReadStreamInOrder(p: Primitives, cfg: Config, r: RecvState, wire: seq<Item>, to: Epoch,
                                             clock: nat -> Times, i: nat)
    requires p.Correct() && Garbled !in wire && AllFit(p, cfg, wire) && Linked(p, r.cur, wire, to)
    ensures var (after, parsed, got) := ReadStream(p, cfg, r, StreamOf(p, cfg, wire), clock, i);
            && AllFit(p, cfg, BehindFirst(wire)) && parsed.rest == StreamOf(p, cfg, BehindFirst(wire))
            && Linked(p, after.cur, BehindFirst(wire), to)
            && got == match First(wire)
                      case None => Rejected(Eof)
                      case Some(s) => Opened(s.inner, s.payload)
    decreases wire
  {
    hide Receive, FrameOf, Encode, Parse, DeriveRotatedKey, Below;
    if wire == [] {
      NothingToParse(cfg);
    } else {
      var s := wire[0].sent;
      ParseOfEncode(cfg, FrameOf(p, cfg, s), StreamOf(p, cfg, wire[1..]));
      ReceiveInOrder(p, cfg, r, s, clock(i));
      if s.inner == INNER_KEY_UPDATE {
        var next := Receive(p, cfg, r, FrameOf(p, cfg, s), clock(i)).0;
        ReadStreamInOrder(p, cfg, next, wire[1..], to, clock, i + 1);
      }
    }
  }

  lemma NothingToParse(cfg: Config)
    ensures Parse(cfg, []) == Parsed(Err(Eof), [])
  {
  }

  lemma BehindFirstShorter(wire: seq<Item>)
    requires Garbled !in wire
    ensures First(wire).Some? ==> |BehindFirst(wire)| < |wire|
  {
  }

  lemma {:induction false} PendingFirst(wire: seq<Item>)
    requires Garbled !in wire
    ensures Pending(wire) ==
            match First(wire)
            case None => []
            case Some(s) => (if s.inner == INNER_DATA then [s.payload] else []) + Pending(BehindFirst(wire))
    decreases wire
  {
    if wire != [] {
      PendingFirst(wire[1..]);
    }
  }

  /** One call of Read on the bytes of a linked wire returns the first payload still in flight,
      and an end of stream only when there is none; what it leaves is again linked. */
  lemma {:induction false} ReadReturnsFirstPending(p: Primitives, cfg: Config, r: RecvState, s: SendKey, closed: bool,
                                                   wire: seq<Item>, to: Epoch, out: Bytes,
                                                   clocks: nat -> nat -> Times, envs: nat -> WriteEnv, j: nat)
    returns (rest: seq<Item>)
    requires p.Correct() && Garbled !in wire && AllFit(p, cfg, wire) && Linked(p, r.cur, wire, to)
    ensures var reading := ReadPayload(p, cfg, r, s, closed, StreamOf(p, cfg, wire), out, clocks, envs, j);
            && Garbled !in rest && AllFit(p, cfg, rest) && Linked(p, reading.recv.cur, rest, to)
            && reading.rest == StreamOf(p, cfg, rest) && IsSuffix(rest, wire)
            && if Pending(wire) == [] then reading.result == Err(Eof) && rest == []
               else reading.result == Ok(Pending(wire)[0]) && Pending(rest) == Pending(wire)[1..]
    decreases |wire|
  {
    hide ReadStream, WriteThrough, StreamOf, AllFit, Linked, Pending, First, BehindFirst;
    ReadStreamInOrder(p, cfg, r, wire, to, clocks(j), 0);
    PendingFirst(wire);
    FirstIsKnown(p, r.cur, wire, to);
    BehindFirstShorter(wire);
    var (after, _, _) := ReadStream(p, cfg, r, StreamOf(p, cfg, wire), clocks(j), 0);
    rest := BehindFirst(wire);
    if First(wire).Some? && First(wire).value.inner != INNER_DATA {
      var pong := WriteThrough(p, cfg, s, closed, INNER_PONG, [], envs(j));
      if First(wire).value.inner == INNER_PING {
        rest := ReadReturnsFirstPending(p, cfg, after, pong.key, closed, rest, to, out + pong.bytes, clocks, envs, j + 1);
      } else {
        rest := ReadReturnsFirstPending(p, cfg, after, s, closed, rest, to, out, clocks, envs, j + 1);
      }
    }
  }

  lemma {:induction false} FirstIsKnown(p: Primitives, from: RecvKey, wire: seq<Item>, to: Epoch)
    requires Garbled !in wire && Linked(p, from, wire, to)
    ensures First(wire).Some? ==> wire != [] && INNER_DATA <= First(wire).value.inner <= INNER_PONG
    ensures First(wire).None? ==> BehindFirst(wire) == []
    decreases wire
  {
    if wire != [] {
      FirstIsKnown(p, AfterSent(p, from, wire[0].sent), wire[1..], to);
    }
  }

  /** The frames of one write: the key update if it was due, and the payload. */
  function UpdateItem(s: SendKey, salt: Bytes): Sent
    requires s.count < U64_LIMIT - 1
  {
    Sent(s.id, s.key, s.count + 1, INNER_KEY_UPDATE, salt)
  }

  function DataItem(s: SendKey, payload: Bytes): Sent
    requires s.count < U64_LIMIT - 1
  {
    Sent(s.id, s.key, s.count + 1, INNER_DATA, payload)
  }

  predicate SmallEnough(p: Primitives, cfg: Config, sent: Sent) {
    |FrameOf(p, cfg, sent).payload| < U32_LIMIT
  }

  lemma SealIsEncoding(p: Primitives, cfg: Config, s: SendKey, inner: byte, payload: Bytes, taken: nat)
    requires s.count < U64_LIMIT - 1
    requires SealAndWrite(p, cfg, s, false, inner, payload, taken).err.None?
    requires SmallEnough(p, cfg, Sent(s.id, s.key, s.count + 1, inner, payload))
    ensures var sent := Sent(s.id, s.key, s.count + 1, inner, payload);
            && SealAndWrite(p, cfg, s, false, inner, payload, taken) ==
               Sealing(s.(count := s.count + 1), Encode(cfg, FrameOf(p, cfg, sent)), None)
            && Fits(cfg, FrameOf(p, cfg, sent))
  {
    hide SealedFrame, Encode;
  }

  /** A write without a rotation is one linked frame. */
  lemma DataIsLinked(p: Primitives, cfg: Config, s: SendKey, from: RecvKey, payload: Bytes, taken: nat)
    requires from.id == s.id && from.key == s.key && |s.key| == KEY_LEN
    requires Below(from.accepted, s.count + 1) && s.count < U64_LIMIT - 1
    requires SmallEnough(p, cfg, DataItem(s, payload))
    requires SealAndWrite(p, cfg, s, false, INNER_DATA, payload, taken).err.None?
    ensures var w, wire := SealAndWrite(p, cfg, s, false, INNER_DATA, payload, taken), [Whole(DataItem(s, payload))];
            && AllFit(p, cfg, wire) && Pending(wire) == [payload]
            && w.bytes == StreamOf(p, cfg, wire)
            && Linked(p, from, wire, Epoch(w.key.id, w.key.key, w.key.count + 1))
  {
    hide FrameOf, Encode, SealAndWrite, SmallEnough;
    SealIsEncoding(p, cfg, s, INNER_DATA, payload, taken);
    var wire := [Whole(DataItem(s, payload))];
    assert wire[1..] == [];
    assert StreamOf(p, cfg, wire) == Encode(cfg, FrameOf(p, cfg, DataItem(s, payload))) + [];
  }

  /** Putting a key update in front of a linked wire of the next epoch. */
  lemma UpdateIsLinked(p: Primitives, cfg: Config, s: SendKey, from: RecvKey, salt: Bytes, now: int,
                       wire: seq<Item>, to: Epoch)
    requires from.id == s.id && from.key == s.key && |s.key| == KEY_LEN && |salt| == SALT_SIZE
    requires Below(from.accepted, s.count + 1) && s.count < U64_LIMIT - 1
    requires Garbled !in wire && AllFit(p, cfg, wire)
    requires Fits(cfg, FrameOf(p, cfg, UpdateItem(s, salt)))
    requires var next := RotateSend(p, s, salt, now);
             Linked(p, RecvKey(next.id, next.key, 0, {}), wire, to)
    ensures var all := [Whole(UpdateItem(s, salt))] + wire;
            && Garbled !in all && AllFit(p, cfg, all) && Pending(all) == Pending(wire)
            && StreamOf(p, cfg, all) == Encode(cfg, FrameOf(p, cfg, UpdateItem(s, salt))) + StreamOf(p, cfg, wire)
            && Linked(p, from, all, to)
  {
    hide FrameOf, Encode, DeriveRotatedKey;
    var all := [Whole(UpdateItem(s, salt))] + wire;
    assert all[1..] == wire;
  }

  /** A successful write is the bytes of a linked wire that carries exactly its payload. */
  lemma WriteIsLinked(p: Primitives, cfg: Config, s: SendKey, from: RecvKey, payload: Bytes, env: WriteEnv)
    returns (wire: seq<Item>)
    requires p.Correct() && from.id == s.id && from.key == s.key && |s.key| == KEY_LEN
    requires Below(from.accepted, s.count + 1) && s.count < U64_LIMIT - 1
    requires env.salt.Some? ==> |env.salt.value| == SALT_SIZE
                                && SmallEnough(p, cfg, UpdateItem(s, env.salt.value))
                                && SmallEnough(p, cfg, DataItem(RotateSend(p, s, env.salt.value, env.createdAt), payload))
    requires SmallEnough(p, cfg, DataItem(s, payload))
    requires WriteThrough(p, cfg, s, false, INNER_DATA, payload, env).err.None?
    ensures var w := WriteThrough(p, cfg, s, false, INNER_DATA, payload, env);
            && Garbled !in wire && AllFit(p, cfg, wire) && Pending(wire) == [payload] && EndsWithData(wire)
            && w.bytes == StreamOf(p, cfg, wire)
            && Linked(p, from, wire, Epoch(w.key.id, w.key.key, w.key.count + 1))
  {
    hide FrameOf, Encode, DeriveRotatedKey, SealAndWrite, SmallEnough, StreamOf, AllFit, Linked, Pending;
    var w := WriteThrough(p, cfg, s, false, INNER_DATA, payload, env);
    if RotationDue(cfg, s, env.checkedAt) {
      var salt := env.salt.value;
      var next := RotateSend(p, s, salt, env.createdAt);
      SealIsEncoding(p, cfg, s, INNER_KEY_UPDATE, salt, env.updateTaken);
      RotatedKeyLength(p, s.key, salt);
      DataIsLinked(p, cfg, next, RecvKey(next.id, next.key, 0, {}), payload, env.dataTaken);
      wire := [Whole(DataItem(next, payload))];
      UpdateIsLinked(p, cfg, s, from, salt, env.createdAt, wire, Epoch(w.key.id, w.key.key, w.key.count + 1));
      wire := [Whole(UpdateItem(s, salt))] + wire;
    } else {
      DataIsLinked(p, cfg, s, from, payload, env.dataTaken);
      wire := [Whole(DataItem(s, payload))];
      var sent := SealAndWrite(p, cfg, s, false, INNER_DATA, payload, env.dataTaken);
      assert w.bytes == [] + sent.bytes == sent.bytes;
    }
  }

  /** The round trip through all layers: an application payload that one side packs and writes
      with success, rotation included, is what the other side reads and unpacks, once the bytes
      arrive, however they are segmented. */
  lemma PackedPayloadArrives(p: Primitives, cfg: Config, s: SendKey, r: RecvState, t: byte, payload: Bytes,
                             env: WriteEnv, segments: seq<Bytes>, own: SendKey, closed: bool, out: Bytes,
                             clocks: nat -> nat -> Times, envs: nat -> WriteEnv)
    requires p.Correct() && r.cur.id == s.id && r.cur.key == s.key && |s.key| == KEY_LEN
    requires Below(r.cur.accepted, s.count + 1) && s.count < U64_LIMIT - 1
    requires TYPE_AUTH <= t <= TYPE_IP
    requires env.salt.Some? ==> |env.salt.value| == SALT_SIZE
                                && SmallEnough(p, cfg, UpdateItem(s, env.salt.value))
                                && SmallEnough(p, cfg, DataItem(RotateSend(p, s, env.salt.value, env.createdAt), Pack(t, payload)))
    requires SmallEnough(p, cfg, DataItem(s, Pack(t, payload)))
    requires WriteThrough(p, cfg, s, false, INNER_DATA, Pack(t, payload), env).err.None?
    requires Flatten(segments) == WriteThrough(p, cfg, s, false, INNER_DATA, Pack(t, payload), env).bytes
    ensures var w := WriteThrough(p, cfg, s, false, INNER_DATA, Pack(t, payload), env);
            var reading := ReadPayload(p, cfg, r, own, closed, Flatten(segments), out, clocks, envs, 0);
            && reading.result.Ok? && Unpack(reading.result.value) == Ok((t, payload))
            && reading.recv.cur.id == w.key.id && reading.recv.cur.key == w.key.key
            && reading.rest == [] && Below(reading.recv.cur.accepted, w.key.count + 1)
  {
    hide FrameOf, Encode, DeriveRotatedKey, WriteThrough, ReadPayload, SmallEnough, Below;
    var wire := WriteIsLinked(p, cfg, s, r.cur, Pack(t, payload), env);
    var w := WriteThrough(p, cfg, s, false, INNER_DATA, Pack(t, payload), env);
    var to := Epoch(w.key.id, w.key.key, w.key.count + 1);
    var rest := ReadReturnsFirstPending(p, cfg, r, own, closed, wire, to, out, clocks, envs, 0);
    UnpackExactly(Pack(t, payload), t, payload);
    if rest != [] {
      EndPending(rest);
    }
  }

  /** A completed handshake establishes the channel: in each direction the sender's and the
      receiver's first keys are linked by the empty wire, and a run of the direction can start. */
  lemma HandshakeOpensChannels(p: Primitives, cfg: Config, serverPriv: Bytes, eph: Bytes,
                               coins: Handshakes.ServerCoins, now: int)
    requires p.Correct() && coins.WellFormed()
    requires Handshakes.ServerReply(p, cfg, serverPriv, Handshakes.ClientHello(p, eph), coins).Ok?
    ensures var (reply, server) := Handshakes.ServerReply(p, cfg, serverPriv, Handshakes.ClientHello(p, eph), coins).value;
            var finish := Handshakes.ClientFinish(p, cfg, p.publicKey(serverPriv), eph, reply);
            && finish.Ok?
            && var client := finish.value;
            && Linked(p, RecvKey(1, server.recv, 0, {}), [], Epoch(1, client.send, 1))
            && Linked(p, RecvKey(1, client.recv, 0, {}), [], Epoch(1, server.send, 1))
            && Delivery.Inv(p, Init(client.send, now)) && Delivery.Inv(p, Init(server.send, now))
  {
    Handshakes.HandshakeAgrees(p, cfg, serverPriv, eph, coins);
    hide Handshakes.ServerReply, Handshakes.ClientFinish;
  }
}
