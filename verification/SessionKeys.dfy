/** What the derived keys are, that they differ, and what the transcript and the client's MAC bind. */
module SessionKeys {
  import opened Bytes
  import opened Crypto
  import opened Frames
  import opened Handshakes
  import opened SecureSpec
  import opened Auth
  import D = Delivery

  /* ------------------------------ what the keys are ------------------------------ */

  /** The first block of the expansion is the HMAC of the info string and the octet 1. */
  lemma FirstBlock(p: Primitives, prk: Bytes, info: Bytes)
    ensures Block(p, prk, info, 1) == p.hmac(prk, info + [1])
  {
    assert Block(p, prk, info, 0) + info + [1] == info + [1];
  }

  lemma OneBlock(p: Primitives, prk: Bytes, info: Bytes)
    requires p.Correct()
    ensures Block(p, prk, info, 1) == OutputKeyingMaterial(p, prk, info, KEY_LEN)
  {
    assert Blocks(p, prk, info, 1) == [] + Block(p, prk, info, 1);
  }

  /** Each direction's key is 32 octets of HKDF (RFC 5869) over the shared secret, salted with the
      transcript, with an info string of its own. */
  lemma SessionKeysAreHkdf(p: Primitives, shared: Bytes, transcript: Bytes)
    requires p.Correct() && transcript != []
    ensures var keys, prk := DeriveSessionKeys(p, shared, transcript), p.hmac(transcript, shared);
            && keys.c2s == OutputKeyingMaterial(p, prk, Ascii("tcpx c2s aes-gcm v1"), 32)
            && keys.s2c == OutputKeyingMaterial(p, prk, Ascii("tcpx s2c aes-gcm v1"), 32)
  {
    var prk := p.hmac(transcript, shared);
    OneBlock(p, prk, Ascii("tcpx c2s aes-gcm v1"));
    OneBlock(p, prk, Ascii("tcpx s2c aes-gcm v1"));
  }

  /** A rotated key is 32 octets of HKDF over the fresh salt, salted with the old key. */
  lemma RotatedKeyIsHkdf(p: Primitives, oldKey: Bytes, salt: Bytes)
    requires p.Correct() && oldKey != []
    ensures DeriveRotatedKey(p, oldKey, salt) == OutputKeyingMaterial(p, p.hmac(oldKey, salt), Ascii("tcpx rotate key v1"), 32)
  {
    OneBlock(p, p.hmac(oldKey, salt), Ascii("tcpx rotate key v1"));
  }

  /* ------------------------------ that they differ ------------------------------ */

  ghost predicate Collision(p: Primitives, key: Bytes, m: Bytes, n: Bytes) {
    m != n && |m| == |n| && p.hmac(key, m) == p.hmac(key, n)
  }

  /** No two messages of one length of at most a hash's have the same HMAC under one key. */
  ghost predicate ShortMessagesDiffer(p: Primitives) {
    forall key, m, n :: |m| <= HASH_LEN ==> !Collision(p, key, m, n)
  }

  /** If a handshake gave both directions one key, two different short messages would collide. */
  lemma EqualKeysCollide(p: Primitives, shared: Bytes, transcript: Bytes) returns (key: Bytes, m: Bytes, n: Bytes)
    ensures DeriveSessionKeys(p, shared, transcript).c2s == DeriveSessionKeys(p, shared, transcript).s2c ==>
              |m| <= HASH_LEN && Collision(p, key, m, n)
  {
    key := HkdfExtract(p, transcript, shared);
    var c2s, s2c := Ascii("tcpx c2s aes-gcm v1"), Ascii("tcpx s2c aes-gcm v1");
    m, n := c2s + [1], s2c + [1];
    FirstBlock(p, key, c2s);
    FirstBlock(p, key, s2c);
    assert c2s[5] == 'c' as int && s2c[5] == 's' as int;
    assert m[5] != n[5];
  }

  /** A completed handshake gives each side different keys for sending and receiving. */
  lemma DirectionsDiffer(p: Primitives, cfg: Config, serverPriv: Bytes, hello: Frame, coins: ServerCoins)
    requires ShortMessagesDiffer(p) && ServerReply(p, cfg, serverPriv, hello, coins).Ok?
    ensures var keys := ServerReply(p, cfg, serverPriv, hello, coins).value.1;
            keys.send != keys.recv
  {
    var shared := p.dh(serverPriv, hello.payload).value;
    var key, m, n := EqualKeysCollide(p, shared, Transcript(cfg, hello.payload, p.publicKey(serverPriv)));
  }

  lemma {:induction false} FirstKeyStays(p: Primitives, cfg: Config, key: Bytes, now: int, steps: seq<D.Step>)
    ensures var s := D.Run(p, cfg, D.Init(key, now), steps);
            s.keys != [] && s.keys[0] == key
  {
    if steps != [] {
      FirstKeyStays(p, cfg, key, now, steps[..|steps| - 1]);
      FirstKeyStep(p, cfg, D.Run(p, cfg, D.Init(key, now), steps[..|steps| - 1]), steps[|steps| - 1]);
    }
  }

  lemma FirstKeyStep(p: Primitives, cfg: Config, s: D.Sys, step: D.Step)
    ensures s.keys <= D.Next(p, cfg, s, step).keys
  {
    hide D.FrameOf, Encode, Receive, DeriveRotatedKey;
  }

  /** So the first keys' seals of the two directions of a connection never share key and nonce. */
  lemma DirectionsShareNoNonce(p: Primitives, cfg: Config, serverPriv: Bytes, hello: Frame, coins: ServerCoins, now: int,
                               up: seq<D.Step>, down: seq<D.Step>, i: nat, j: nat)
    requires ShortMessagesDiffer(p) && ServerReply(p, cfg, serverPriv, hello, coins).Ok?
    requires var keys := ServerReply(p, cfg, serverPriv, hello, coins).value.1;
             var client, server := D.Run(p, cfg, D.Init(keys.recv, now), up), D.Run(p, cfg, D.Init(keys.send, now), down);
             && i < |client.seals| && j < |server.seals| && client.seals[i].epoch == 0 == server.seals[j].epoch
    ensures var keys := ServerReply(p, cfg, serverPriv, hello, coins).value.1;
            var client, server := D.Run(p, cfg, D.Init(keys.recv, now), up), D.Run(p, cfg, D.Init(keys.send, now), down);
            && client.keys != [] && server.keys != []
            && !(client.keys[0] == server.keys[0] && SeqNonce(client.seals[i].n) == SeqNonce(server.seals[j].n))
  {
    hide ServerReply, ShortMessagesDiffer, D.Run;
    DirectionsDiffer(p, cfg, serverPriv, hello, coins);
    var keys := ServerReply(p, cfg, serverPriv, hello, coins).value.1;
    FirstKeyStays(p, cfg, keys.recv, now, up);
    FirstKeyStays(p, cfg, keys.send, now, down);
  }

  /* ------------------------------ what is bound ------------------------------ */

  /** The transcript determines the configuration's tag and both public keys. */
  lemma TranscriptInjective(c: Config, a: Bytes, b: Bytes, d: Config, x: Bytes, y: Bytes)
    requires |a| == |x| && |b| == |y|
    requires Transcript(c, a, b) == Transcript(d, x, y)
    ensures c.magic == d.magic && c.version == d.version && a == x && b == y
  {
    hide BE, Ascii;
    var tag := Ascii("tcpx-handshake-v1");
    var c1, d1 := tag + BE(c.magic, 4), tag + BE(d.magic, 4);
    var c2, d2 := c1 + BE(c.version, 2), d1 + BE(d.version, 2);
    SplitFields(c2 + a, b, d2 + x, y);
    SplitFields(c2, a, d2, x);
    SplitFields(c1, BE(c.version, 2), d1, BE(d.version, 2));
    SplitFields(tag, BE(c.magic, 4), tag, BE(d.magic, 4));
    Widths();
    BEInjective(c.magic, d.magic, 4);
    BEInjective(c.version, d.version, 2);
  }

  /** The client accepts a reply exactly if it is a handshake frame whose content, behind a nonce, opens
      under the server-to-client key and the transcript to a text of the right length that begins with
      the tag. */
  lemma ReplyAcceptedExactly(p: Primitives, cfg: Config, serverPub: Bytes, eph: Bytes, reply: Frame, keys: Keys)
    requires p.Correct() && |serverPub| == KEY_LEN
    ensures ClientFinish(p, cfg, serverPub, eph, reply) == Ok(keys) <==>
            && p.dh(eph, serverPub).Some?
            && (var transcript := Transcript(cfg, p.publicKey(eph), serverPub);
                var prk := p.hmac(transcript, p.dh(eph, serverPub).value);
                && keys.send == OutputKeyingMaterial(p, prk, Ascii("tcpx c2s aes-gcm v1"), 32)
                && keys.recv == OutputKeyingMaterial(p, prk, Ascii("tcpx s2c aes-gcm v1"), 32)
                && exists nonce: Bytes, sealed: Bytes, proof: Bytes ::
                     && |nonce| == 12 && reply == Frame(FRAME_HANDSHAKE_SERVER, nonce + sealed)
                     && p.open(keys.recv, nonce, sealed, transcript) == Some(proof)
                     && |proof| == 24 && Ascii("SOK1") <= proof)
  {
    var transcript := Transcript(cfg, p.publicKey(eph), serverPub);
    assert |transcript| > 0;
    if p.dh(eph, serverPub).Some? {
      SessionKeysAreHkdf(p, p.dh(eph, serverPub).value, transcript);
      hide Transcript, DeriveSessionKeys, OutputKeyingMaterial, Ascii;
      if ClientFinish(p, cfg, serverPub, eph, reply) == Ok(keys) {
        var nonce, sealed := reply.payload[..12], reply.payload[12..];
        assert reply == Frame(FRAME_HANDSHAKE_SERVER, nonce + sealed);
        var proof := p.open(keys.recv, nonce, sealed, transcript).value;
        assert Ascii("SOK1") <= proof;
      }
      forall nonce: Bytes, sealed: Bytes | |nonce| == 12 && reply == Frame(FRAME_HANDSHAKE_SERVER, nonce + sealed)
        ensures reply.payload[..12] == nonce && reply.payload[12..] == sealed
      {
      }
    }
  }

  /** The server answers exactly the hellos that are handshake frames of 32 bytes with which the key
      exchange succeeds. */
  lemma HelloAnsweredExactly(p: Primitives, cfg: Config, serverPriv: Bytes, hello: Frame, coins: ServerCoins)
    requires p.Correct()
    ensures ServerReply(p, cfg, serverPriv, hello, coins).Ok? <==>
            hello.ftype == FRAME_HANDSHAKE_CLIENT && |hello.payload| == 32 && p.dh(serverPriv, hello.payload).Some?
  {
    hide Transcript, Ascii;
  }

  /** Equal MACs of different keys or nonces would be a collision. */
  lemma MacBinds(p: Primitives, shared: Bytes, c1: Bytes, s1: Bytes, n1: Bytes, c2: Bytes, s2: Bytes, n2: Bytes)
    returns (m: Bytes, n: Bytes)
    requires |c1| == |c2| == 32 && |s1| == |s2| == 32 && |n1| == |n2|
    requires ClientAuthMAC(p, shared, c1, s1, n1) == ClientAuthMAC(p, shared, c2, s2, n2)
    requires c1 != c2 || s1 != s2 || n1 != n2
    ensures Collision(p, p.hmac(shared, Ascii("vlan2 client auth root v2")), m, n)
  {
    var tag := Ascii("vlan2 client auth payload v2");
    m, n := tag + c1 + s1 + n1, tag + c2 + s2 + n2;
    if m == n {
      MacInputUnique(c1, s1, n1, c2, s2, n2, tag);
    }
  }
}
