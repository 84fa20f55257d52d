/** A read answers every ping that it meets with one pong, and nothing else. */
module Pongs {
  import opened Bytes
  import opened Crypto
  import opened Frames
  import opened SecureSpec
  import opened SecureConns
  import opened Delivery
  import opened EndToEnd
  import opened Rotation

  /** The pings in flight before the first payload. */
  function PingsBefore(wire: seq<Item>): nat
    requires Garbled !in wire
  {
    if wire == [] || wire[0].sent.inner == INNER_DATA then 0
    else (if wire[0].sent.inner == INNER_PING then 1 else 0) + PingsBefore(wire[1..])
  }

  /** The bytes of n pongs in a row under one key. */
  function PongBytes(p: Primitives, cfg: Config, key: SendKey, n: nat): Bytes
    requires key.count + n < U64_LIMIT
    decreases n
  {
    if n == 0 then []
    else Encode(cfg, Sealed(p, cfg, key, INNER_PONG, [])) + PongBytes(p, cfg, key.(count := key.count + 1), n - 1)
  }

  /** Pongs are written without hindrance and no rotation is due meanwhile. */
  ghost predicate WritesPongs(p: Primitives, cfg: Config, key: SendKey, envs: nat -> WriteEnv) {
    && AesKey(key.key)
    && (forall j :: !(0 < cfg.keyRotateInterval <= envs(j).checkedAt - key.created))
    && (forall k: u64 {:trigger FrameOf(p, cfg, Sent(key.id, key.key, k, INNER_PONG, []))} ::
          var f := FrameOf(p, cfg, Sent(key.id, key.key, k, INNER_PONG, []));
          Writable(cfg, f) && forall j: nat :: |Encode(cfg, f)| <= envs(j).dataTaken)
  }

  lemma OnePong(p: Primitives, cfg: Config, key: SendKey, envs: nat -> WriteEnv, j: nat)
    requires WritesPongs(p, cfg, key, envs) && key.count < U64_LIMIT - 1
    ensures WriteThrough(p, cfg, key, false, INNER_PONG, [], envs(j))
         == Sealing(key.(count := key.count + 1), Encode(cfg, Sealed(p, cfg, key, INNER_PONG, [])), None)
    ensures WritesPongs(p, cfg, key.(count := key.count + 1), envs)
  {
    hide SealedFrame, Encode;
    var f := FrameOf(p, cfg, Sent(key.id, key.key, key.count + 1, INNER_PONG, []));
    assert [] + Encode(cfg, f) == Encode(cfg, f);
  }

  lemma {:induction false} PingsFirst(wire: seq<Item>)
    requires Garbled !in wire
    ensures PingsBefore(wire) ==
            match First(wire)
            case None => 0
            case Some(s) =>
              if s.inner == INNER_DATA then 0 else (if s.inner == INNER_PING then 1 else 0) + PingsBefore(BehindFirst(wire))
  {
    if wire != [] {
      PingsFirst(wire[1..]);
    }
  }

  /** One call of Read on the bytes of a linked wire puts out exactly one pong for each ping before the
      first payload, in a row, with the sender's next numbers. */
  lemma {:induction false} OnePongPerPing(p: Primitives, cfg: Config, r: RecvState, key: SendKey, wire: seq<Item>, to: Epoch,
                                          out: Bytes, clocks: nat -> nat -> Times, envs: nat -> WriteEnv, j: nat)
    requires p.Correct() && Garbled !in wire && AllFit(p, cfg, wire) && Linked(p, r.cur, wire, to)
    requires key.count + PingsBefore(wire) < U64_LIMIT - 1 && WritesPongs(p, cfg, key, envs)
    ensures var reading := ReadPayload(p, cfg, r, key, false, StreamOf(p, cfg, wire), out, clocks, envs, j);
            && reading.out == out + PongBytes(p, cfg, key, PingsBefore(wire))
            && reading.send == key.(count := key.count + PingsBefore(wire))
    decreases |wire|
  {
    hide ReadStream, WriteThrough, StreamOf, AllFit, Linked, First, BehindFirst, PingsBefore, WritesPongs, Encode, Sealed;
    ReadStreamInOrder(p, cfg, r, wire, to, clocks(j), 0);
    PingsFirst(wire);
    FirstIsKnown(p, r.cur, wire, to);
    BehindFirstShorter(wire);
    var (after, _, _) := ReadStream(p, cfg, r, StreamOf(p, cfg, wire), clocks(j), 0);
    var rest := BehindFirst(wire);
    if First(wire).None? || First(wire).value.inner == INNER_DATA {
      assert out + [] == out;
    } else if First(wire).value.inner == INNER_PING {
      OnePong(p, cfg, key, envs, j);
      var next := key.(count := key.count + 1);
      var pong := Encode(cfg, Sealed(p, cfg, key, INNER_PONG, []));
      OnePongPerPing(p, cfg, after, next, rest, to, out + pong, clocks, envs, j + 1);
      var more := PongBytes(p, cfg, next, PingsBefore(rest));
      assert out + pong + more == out + (pong + more);
    } else {
      OnePongPerPing(p, cfg, after, key, rest, to, out, clocks, envs, j + 1);
    }
  }
}
