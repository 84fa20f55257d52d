/** The client's proof of identity, sent inside the encrypted connection. */
module Auth {
  import opened Bytes
  import opened Crypto

  const CLIENT_AUTH_VERSION: byte := 1
  const CLIENT_AUTH_NONCE_SIZE: nat := 16
  const CLIENT_AUTH_MAC_SIZE: nat := 32
  const CLIENT_AUTH_PAYLOAD_SIZE: nat := 1 + 32 + CLIENT_AUTH_NONCE_SIZE + CLIENT_AUTH_MAC_SIZE

  /* ------------------------------ hexadecimal ------------------------------ */

  function HexDigit(n: nat): char
    requires n < 16
  {
    if n < 10 then '0' + n as char else 'a' + (n - 10) as char
  }

  function HexValue(c: char): Option<nat> {
    if '0' <= c <= '9' then Some((c - '0') as nat)
    else if 'a' <= c <= 'f' then Some((c - 'a') as nat + 10)
    else if 'A' <= c <= 'F' then Some((c - 'A') as nat + 10)
    else None
  }

  function EncodeHex(b: Bytes): (s: string)
    ensures |s| == 2 * |b|
  {
    if b == [] then "" else [HexDigit(b[0] / 16), HexDigit(b[0] % 16)] + EncodeHex(b[1..])
  }

  function DecodeHex(s: string): Option<Bytes> {
    if s == "" then Some([])
    else if |s| == 1 then None
    else
      match (HexValue(s[0]), HexValue(s[1]), DecodeHex(s[2..]))
      case (Some(hi), Some(lo), Some(rest)) =>
        if hi < 16 && lo < 16 then Some([16 * hi + lo] + rest) else None
      case _ => None
  }

  lemma {:induction false} HexRoundTrip(b: Bytes)
    ensures DecodeHex(EncodeHex(b)) == Some(b)
  {
    if b != [] {
      HexRoundTrip(b[1..]);
      assert EncodeHex(b)[2..] == EncodeHex(b[1..]);
      assert [b[0]] + b[1..] == b;
    }
  }

  lemma HexInjective(a: Bytes, b: Bytes)
    requires EncodeHex(a) == EncodeHex(b)
    ensures a == b
  {
    HexRoundTrip(a);
    HexRoundTrip(b);
  }

  /* ------------------------------ the payload ------------------------------ */

  function ClientAuthMAC(p: Primitives, shared: Bytes, clientPub: Bytes, serverPub: Bytes, nonce: Bytes): Bytes {
    var prk := p.hmac(shared, Ascii("vlan2 client auth root v2"));
    p.hmac(prk, Ascii("vlan2 client auth payload v2") + clientPub + serverPub + nonce)
  }

  /** The payload and the client's identity, or None when the key exchange fails. */
  function EncodeClientAuth(p: Primitives, clientPriv: Bytes, serverPub: Bytes, nonce: Bytes): Option<(Bytes, string)> {
    match p.dh(clientPriv, serverPub)
    case None => None
    case Some(shared) =>
      var clientPub := p.publicKey(clientPriv);
      var mac := ClientAuthMAC(p, shared, clientPub, serverPub, nonce);
      Some(([CLIENT_AUTH_VERSION] + clientPub + nonce + mac, EncodeHex(clientPub)))
  }

  datatype AuthError = BadSize | BadVersion | BadPublicKey | BadExchange | MacMismatch

  /** The identity that an authentication payload proves to the server. */
  function VerifyClientAuth(p: Primitives, payload: Bytes, serverPriv: Bytes): Result<string, AuthError> {
    if |payload| != CLIENT_AUTH_PAYLOAD_SIZE then Err(BadSize)
    else if payload[0] != CLIENT_AUTH_VERSION then Err(BadVersion)
    else
      var clientPub := payload[1..33];
      var nonce := payload[33..33 + CLIENT_AUTH_NONCE_SIZE];
      match DecodeHex(EncodeHex(clientPub))
      case None => Err(BadPublicKey)
      case Some(point) =>
        match p.dh(serverPriv, point)
        case None => Err(BadExchange)
        case Some(shared) =>
          if payload[33 + CLIENT_AUTH_NONCE_SIZE..] ==
             ClientAuthMAC(p, shared, clientPub, p.publicKey(serverPriv), nonce)
          then Ok(EncodeHex(clientPub))
          else Err(MacMismatch)
  }

  /** The server accepts every payload a client makes for it, as that client's identity. */
  lemma AuthRoundTrip(p: Primitives, clientPriv: Bytes, serverPriv: Bytes, nonce: Bytes)
    requires p.Correct() && |nonce| == CLIENT_AUTH_NONCE_SIZE
    ensures var made := EncodeClientAuth(p, clientPriv, p.publicKey(serverPriv), nonce);
            made.Some? ==>
              && VerifyClientAuth(p, made.value.0, serverPriv) == Ok(made.value.1)
              && made.value.1 != ""
  {
    var serverPub := p.publicKey(serverPriv);
    var made := EncodeClientAuth(p, clientPriv, serverPub, nonce);
    if made.Some? {
      var clientPub := p.publicKey(clientPriv);
      assert p.dh(clientPriv, serverPub) == p.dh(serverPriv, clientPub);
      var payload := made.value.0;
      HexRoundTrip(clientPub);
      assert payload[1..33] == clientPub;
      assert payload[33..49] == nonce;
      assert payload[49..] == ClientAuthMAC(p, p.dh(clientPriv, serverPub).value, clientPub, serverPub, nonce);
    }
  }

  /** The payload is the version byte, the public key, the nonce, and the MAC that the server's
      shared secret with that key gives. */
  ghost predicate ProvesKey(p: Primitives, payload: Bytes, serverPriv: Bytes, clientPub: Bytes, nonce: Bytes) {
    && |clientPub| == 32 && |nonce| == CLIENT_AUTH_NONCE_SIZE
    && p.dh(serverPriv, clientPub).Some?
    && payload == [CLIENT_AUTH_VERSION] + clientPub + nonce
                  + ClientAuthMAC(p, p.dh(serverPriv, clientPub).value, clientPub, p.publicKey(serverPriv), nonce)
  }

  lemma VerifiedProvesKey(p: Primitives, payload: Bytes, serverPriv: Bytes, id: string)
    requires VerifyClientAuth(p, payload, serverPriv) == Ok(id)
    ensures id == EncodeHex(payload[1..33]) && ProvesKey(p, payload, serverPriv, payload[1..33], payload[33..49])
  {
    hide ClientAuthMAC, EncodeHex, DecodeHex;
    var clientPub, nonce, mac := payload[1..33], payload[33..49], payload[49..];
    HexRoundTrip(clientPub);
    assert payload == [CLIENT_AUTH_VERSION] + clientPub + nonce + mac;
  }

  lemma ProvenKeyVerifies(p: Primitives, payload: Bytes, serverPriv: Bytes, clientPub: Bytes, nonce: Bytes)
    requires p.Correct() && ProvesKey(p, payload, serverPriv, clientPub, nonce)
    ensures VerifyClientAuth(p, payload, serverPriv) == Ok(EncodeHex(clientPub))
  {
    hide EncodeHex, DecodeHex;
    HexRoundTrip(clientPub);
    assert payload[1..33] == clientPub && payload[33..49] == nonce;
  }

  /** What the server accepts, exactly: the proof of a public key, whose hexadecimal form is the
      identity. */
  lemma VerifiedExactly(p: Primitives, payload: Bytes, serverPriv: Bytes, id: string)
    requires p.Correct()
    ensures VerifyClientAuth(p, payload, serverPriv) == Ok(id) <==>
            exists clientPub, nonce ::
              id == EncodeHex(clientPub) && ProvesKey(p, payload, serverPriv, clientPub, nonce)
  {
    hide ProvesKey, EncodeHex;
    if VerifyClientAuth(p, payload, serverPriv) == Ok(id) {
      VerifiedProvesKey(p, payload, serverPriv, id);
    }
    hide VerifyClientAuth;
    forall clientPub, nonce | id == EncodeHex(clientPub) && ProvesKey(p, payload, serverPriv, clientPub, nonce)
      ensures VerifyClientAuth(p, payload, serverPriv) == Ok(id)
    {
      ProvenKeyVerifies(p, payload, serverPriv, clientPub, nonce);
    }
  }

  /** The MAC covers its fields unambiguously: equal inputs mean equal keys and nonces. */
  lemma MacInputUnique(c1: Bytes, s1: Bytes, n1: Bytes, c2: Bytes, s2: Bytes, n2: Bytes, prefix: Bytes)
    requires |c1| == |c2| == 32 && |s1| == |s2| == 32 && |n1| == |n2|
    requires prefix + c1 + s1 + n1 == prefix + c2 + s2 + n2
    ensures c1 == c2 && s1 == s2 && n1 == n2
  {
    var k := |prefix|;
    var a, b := prefix + c1 + s1 + n1, prefix + c2 + s2 + n2;
    assert a[k..k + 32] == c1 && b[k..k + 32] == c2;
    assert a[k + 32..k + 64] == s1 && b[k + 32..k + 64] == s2;
    assert a[k + 64..] == n1 && b[k + 64..] == n2;
  }
}
