/** The connection handshake: one frame each way, after which both sides hold the session keys. */
module Handshakes {
  import opened Bytes
  import opened Crypto
  import opened Frames

  const CLIENT_HELLO_SIZE: nat := 32
  const SERVER_PROOF_SIZE: nat := 24
  const NONCE_SIZE: nat := 12

  datatype Keys = Keys(send: Bytes, recv: Bytes)

  datatype SessionKeys = SessionKeys(c2s: Bytes, s2c: Bytes)

  /** The server's random choices and clock reading. */
  datatype ServerCoins = ServerCoins(unixTime: u64, pad: Bytes, nonce: Bytes)
  {
    predicate WellFormed() {
      |pad| == NONCE_SIZE && |nonce| == NONCE_SIZE
    }
  }

  function Transcript(cfg: Config, clientPub: Bytes, serverPub: Bytes): Bytes {
    Ascii("tcpx-handshake-v1") + BE(cfg.magic, 4) + BE(cfg.version, 2) + clientPub + serverPub
  }

  function DeriveSessionKeys(p: Primitives, shared: Bytes, transcript: Bytes): SessionKeys {
    var prk := HkdfExtract(p, transcript, shared);
    SessionKeys(Block(p, prk, Ascii("tcpx c2s aes-gcm v1"), 1),
                Block(p, prk, Ascii("tcpx s2c aes-gcm v1"), 1))
  }

  function ServerProof(coins: ServerCoins): Bytes {
    Ascii("SOK1") + BE(coins.unixTime, 8) + coins.pad
  }

  function ClientHello(p: Primitives, eph: Bytes): Frame {
    Frame(FRAME_HANDSHAKE_CLIENT, p.publicKey(eph))
  }

  /** The session keys from the client's point of view. */
  function ClientSession(p: Primitives, cfg: Config, serverPub: Bytes, eph: Bytes): Option<SessionKeys> {
    match p.dh(eph, serverPub)
    case None => None
    case Some(shared) => Some(DeriveSessionKeys(p, shared, Transcript(cfg, p.publicKey(eph), serverPub)))
  }

  /** What the client makes of the server's reply. */
  function ClientFinish(p: Primitives, cfg: Config, serverPub: Bytes, eph: Bytes, reply: Frame): Result<Keys, Error> {
    match ClientSession(p, cfg, serverPub, eph)
    case None => Err(BadKey)
    case Some(session) =>
      if reply.ftype != FRAME_HANDSHAKE_SERVER || |reply.payload| < NONCE_SIZE then Err(Handshake)
      else if !AesKey(session.s2c) then Err(BadKey)
      else
        match p.open(session.s2c, reply.payload[..NONCE_SIZE], reply.payload[NONCE_SIZE..],
                     Transcript(cfg, p.publicKey(eph), serverPub))
        case None => Err(Handshake)
        case Some(proof) =>
          if |proof| != SERVER_PROOF_SIZE || proof[..4] != Ascii("SOK1") then Err(Handshake)
          else Ok(Keys(session.c2s, session.s2c))
  }

  /** What the server replies to a hello, and the keys it goes on with. */
  function ServerReply(p: Primitives, cfg: Config, serverPriv: Bytes, hello: Frame, coins: ServerCoins)
    : Result<(Frame, Keys), Error>
  {
    if hello.ftype != FRAME_HANDSHAKE_CLIENT || |hello.payload| != CLIENT_HELLO_SIZE then Err(Handshake)
    else
      match p.dh(serverPriv, hello.payload)
      case None => Err(BadKey)
      case Some(shared) =>
        var transcript := Transcript(cfg, hello.payload, p.publicKey(serverPriv));
        var session := DeriveSessionKeys(p, shared, transcript);
        if !AesKey(session.s2c) then Err(BadKey)
        else
          var reply := coins.nonce + p.seal(session.s2c, coins.nonce, ServerProof(coins), transcript);
          Ok((Frame(FRAME_HANDSHAKE_SERVER, reply), Keys(session.s2c, session.c2s)))
  }

  method ClientHandshake(conn: Conn, cfg: Config, p: Primitives, serverPub: Bytes, eph: Bytes, taken: nat)
    returns (result: Result<Keys, Error>)
    modifies conn`incoming, conn`outgoing
    ensures var hello := ClientHello(p, eph);
            var parsed := Parse(cfg, Flatten(old(conn.incoming)));
            if !Writable(cfg, hello) then
              result == Err(FrameTooLarge) && conn.incoming == old(conn.incoming) && conn.outgoing == old(conn.outgoing)
            else if taken < |Encode(cfg, hello)| then
              && result == Err(WriteFailed) && conn.incoming == old(conn.incoming)
              && conn.outgoing == old(conn.outgoing) + Encode(cfg, hello)[..taken]
            else
              && conn.outgoing == old(conn.outgoing) + Encode(cfg, hello)
              && if ClientSession(p, cfg, serverPub, eph).None? then
                   result == Err(BadKey) && conn.incoming == old(conn.incoming)
                 else
                   && Flatten(conn.incoming) == parsed.rest
                   && result == match parsed.result
                                case Err(e) => Err(e)
                                case Ok(reply) => ClientFinish(p, cfg, serverPub, eph, reply)
  {
    var err := WriteFrame(conn, cfg, ClientHello(p, eph), taken);
    if err.Some? {
      return Err(err.value);
    }
    var session := ClientSession(p, cfg, serverPub, eph);
    if session.None? {
      return Err(BadKey);
    }
    var read := ReadFrame(conn, cfg);
    if read.Err? {
      return Err(read.error);
    }
    return ClientFinish(p, cfg, serverPub, eph, read.value);
  }

  method ServerHandshake(conn: Conn, cfg: Config, p: Primitives, serverPriv: Bytes, coins: ServerCoins, taken: nat)
    returns (result: Result<Keys, Error>)
    modifies conn`incoming, conn`outgoing
    ensures var parsed := Parse(cfg, Flatten(old(conn.incoming)));
            && Flatten(conn.incoming) == parsed.rest
            && match parsed.result
               case Err(e) => result == Err(e) && conn.outgoing == old(conn.outgoing)
               case Ok(hello) =>
                 match ServerReply(p, cfg, serverPriv, hello, coins)
                 case Err(e) => result == Err(e) && conn.outgoing == old(conn.outgoing)
                 case Ok((reply, keys)) =>
                   if !Writable(cfg, reply) then result == Err(FrameTooLarge) && conn.outgoing == old(conn.outgoing)
                   else if taken < |Encode(cfg, reply)| then
                     && result == Err(WriteFailed)
                     && conn.outgoing == old(conn.outgoing) + Encode(cfg, reply)[..taken]
                   else result == Ok(keys) && conn.outgoing == old(conn.outgoing) + Encode(cfg, reply)
  {
    var read := ReadFrame(conn, cfg);
    if read.Err? {
      return Err(read.error);
    }
    var answer := ServerReply(p, cfg, serverPriv, read.value, coins);
    if answer.Err? {
      return Err(answer.error);
    }
    var (reply, keys) := answer.value;
    var err := WriteFrame(conn, cfg, reply, taken);
    if err.Some? {
      return Err(err.value);
    }
    return Ok(keys);
  }

  /** The keys of one side are those of the other with the directions swapped. */
  predicate Mirrored(client: Keys, server: Keys) {
    && client.send == server.recv && client.recv == server.send
    && |client.send| == KEY_LEN && |client.recv| == KEY_LEN
  }

  /** When the client's hello reaches the server and the reply comes back, both sides reach the
      same verdict, and on success they hold mirrored 32-byte keys. */
  lemma HandshakeAgrees(p: Primitives, cfg: Config, serverPriv: Bytes, eph: Bytes, coins: ServerCoins)
    requires p.Correct() && coins.WellFormed()
    ensures var served := ServerReply(p, cfg, serverPriv, ClientHello(p, eph), coins);
            match served
            case Err(_) => ClientSession(p, cfg, p.publicKey(serverPriv), eph).None?
            case Ok((reply, keys)) =>
              var client := ClientFinish(p, cfg, p.publicKey(serverPriv), eph, reply);
              client.Ok? && Mirrored(client.value, keys)
  {
    var serverPub, clientPub := p.publicKey(serverPriv), p.publicKey(eph);
    var shared := p.dh(serverPriv, clientPub);
    assert shared == p.dh(eph, serverPub);
    if shared.Some? {
      var transcript := Transcript(cfg, clientPub, serverPub);
      var session := DeriveSessionKeys(p, shared.value, transcript);
      var proof := ServerProof(coins);
      var sealed := p.seal(session.s2c, coins.nonce, proof, transcript);
      assert p.open(session.s2c, coins.nonce, sealed, transcript) == Some(proof);
      var payload := coins.nonce + sealed;
      assert payload[..NONCE_SIZE] == coins.nonce && payload[NONCE_SIZE..] == sealed;
      assert proof[..4] == Ascii("SOK1");
    }
  }

  /** The same over the byte streams: whatever segments the network makes of the two frames, and
      whatever follows them, both handshakes succeed with mirrored keys and leave the rest of
      each stream unread. */
  lemma HandshakeOverStreams(p: Primitives, cfg: Config, serverPriv: Bytes, eph: Bytes, coins: ServerCoins,
                             toServer: seq<Bytes>, toClient: seq<Bytes>, afterHello: Bytes, afterReply: Bytes)
    requires p.Correct() && coins.WellFormed()
    requires ClientSession(p, cfg, p.publicKey(serverPriv), eph).Some?
    requires Fits(cfg, ClientHello(p, eph))
    requires Flatten(toServer) == Encode(cfg, ClientHello(p, eph)) + afterHello
    requires var served := ServerReply(p, cfg, serverPriv, ClientHello(p, eph), coins);
             served.Ok? ==> Fits(cfg, served.value.0)
                            && Flatten(toClient) == Encode(cfg, served.value.0) + afterReply
    ensures var hello := Parse(cfg, Flatten(toServer));
            && hello.result.Ok? && hello.rest == afterHello
            && var served := ServerReply(p, cfg, serverPriv, hello.result.value, coins);
            && served.Ok?
            && var reply := Parse(cfg, Flatten(toClient));
            && reply.result.Ok? && reply.rest == afterReply
            && var client := ClientFinish(p, cfg, p.publicKey(serverPriv), eph, reply.result.value);
            && client.Ok? && Mirrored(client.value, served.value.1)
  {
    HandshakeAgrees(p, cfg, serverPriv, eph, coins);
    ParseOfEncode(cfg, ClientHello(p, eph), afterHello);
    var served := ServerReply(p, cfg, serverPriv, ClientHello(p, eph), coins);
    assert served.Ok?;
    ParseOfEncode(cfg, served.value.0, afterReply);
  }
}
