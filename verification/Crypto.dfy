/** The cryptographic primitives, as parameters, and the key derivation built on them. */
module Crypto {
  import opened Bytes

  const HASH_LEN: nat := 32
  const KEY_LEN: nat := 32

  /** HMAC-SHA-256, AES-GCM and X25519 as functions on byte strings. open fails with None;
      dh fails with None on a point it rejects. */
  datatype Primitives = Primitives(
    hmac: (Bytes, Bytes) -> Bytes,
    seal: (Bytes, Bytes, Bytes, Bytes) -> Bytes,
    open: (Bytes, Bytes, Bytes, Bytes) -> Option<Bytes>,
    publicKey: Bytes -> Bytes,
    dh: (Bytes, Bytes) -> Option<Bytes>)
  {
    /** All that is assumed of them: lengths, decryption undoing encryption, and that
        Diffie-Hellman commutes. */
    ghost predicate Correct() {
      && (forall k, m :: |hmac(k, m)| == HASH_LEN)
      && (forall k, n, p, a :: open(k, n, seal(k, n, p, a), a) == Some(p))
      && (forall x :: |publicKey(x)| == KEY_LEN)
      && (forall x, y :: dh(x, publicKey(y)) == dh(y, publicKey(x)))
    }
  }

  /** AES accepts 16, 24 and 32 byte keys. */
  predicate AesKey(key: Bytes) {
    |key| == 16 || |key| == 24 || |key| == 32
  }

  /* ------------------------------ HKDF (RFC 5869) ------------------------------ */

  function Zeros(n: nat): (z: Bytes)
    ensures |z| == n
  {
    seq(n, _ => 0)
  }

  function HkdfExtract(p: Primitives, salt: Bytes, ikm: Bytes): Bytes {
    p.hmac(if salt == [] then Zeros(HASH_LEN) else salt, ikm)
  }

  /** Block T(i) of section 2.3 of RFC 5869; the counter octet is a byte. */
  function Block(p: Primitives, prk: Bytes, info: Bytes, i: nat): Bytes {
    if i == 0 then []
    else p.hmac(prk, Block(p, prk, info, i - 1) + info + [i % 256])
  }

  /** T(1) | ... | T(n). */
  function Blocks(p: Primitives, prk: Bytes, info: Bytes, n: nat): Bytes {
    if n == 0 then [] else Blocks(p, prk, info, n - 1) + Block(p, prk, info, n)
  }

  /** N of the RFC: the number of blocks that give L octets. */
  function BlockCount(length: nat): nat {
    (length + HASH_LEN - 1) / HASH_LEN
  }

  lemma {:induction false} BlocksLength(p: Primitives, prk: Bytes, info: Bytes, n: nat)
    requires p.Correct()
    ensures |Blocks(p, prk, info, n)| == HASH_LEN * n
  {
    if n > 0 {
      BlocksLength(p, prk, info, n - 1);
    }
  }

  /** The first L octets of T(1) | T(2) | ... */
  ghost function OutputKeyingMaterial(p: Primitives, prk: Bytes, info: Bytes, length: nat): (okm: Bytes)
    requires p.Correct()
    ensures |okm| == length
  {
    BlocksLength(p, prk, info, BlockCount(length));
    Blocks(p, prk, info, BlockCount(length))[..length]
  }

  method HkdfExpand(p: Primitives, prk: Bytes, info: Bytes, length: nat) returns (out: Bytes)
    requires p.Correct()
    ensures out == OutputKeyingMaterial(p, prk, info, length)
  {
    hide BlockCount, Block, Blocks, Primitives.Correct;
    var t: Bytes := [];
    var counter: byte := 1;
    out := [];
    ghost var n := 0;
    NoBlocks(p, prk, info);
    while |out| < length
      invariant counter == (n + 1) % 256
      invariant t == Block(p, prk, info, n)
      invariant out == Blocks(p, prk, info, n) && |out| == HASH_LEN * n
      invariant n == 0 || HASH_LEN * (n - 1) < length
      decreases length - |out|
    {
      NextBlock(p, prk, info, n);
      NextCounter(n);
      t := p.hmac(prk, t + info + [counter]);
      out := out + t;
      counter := (counter + 1) % 256;
      n := n + 1;
    }
    CountReached(n, length);
    out := out[..length];
  }

  lemma NoBlocks(p: Primitives, prk: Bytes, info: Bytes)
    ensures Block(p, prk, info, 0) == [] && Blocks(p, prk, info, 0) == []
  {
  }

  /** One block more. */
  lemma NextBlock(p: Primitives, prk: Bytes, info: Bytes, n: nat)
    requires p.Correct()
    ensures Block(p, prk, info, n + 1) == p.hmac(prk, Block(p, prk, info, n) + info + [(n + 1) % 256])
    ensures Blocks(p, prk, info, n + 1) == Blocks(p, prk, info, n) + Block(p, prk, info, n + 1)
    ensures |Block(p, prk, info, n + 1)| == HASH_LEN
  {
    assert Block(p, prk, info, n + 1) == p.hmac(prk, Block(p, prk, info, n) + info + [(n + 1) % 256]);
    hide Block;
  }

  lemma NextCounter(n: nat)
    ensures ((n + 1) % 256 + 1) % 256 == (n + 2) % 256
  {
  }

  lemma CountReached(n: nat, length: nat)
    requires HASH_LEN * n >= length && (n == 0 || HASH_LEN * (n - 1) < length)
    ensures n == BlockCount(length)
  {
  }

  lemma {:induction false} BlocksPrefix(p: Primitives, prk: Bytes, info: Bytes, m: nat, n: nat)
    requires m <= n
    ensures Blocks(p, prk, info, m) <= Blocks(p, prk, info, n)
  {
    if m < n {
      BlocksPrefix(p, prk, info, m, n - 1);
    }
  }

  /** Shorter outputs are prefixes of longer ones. */
  lemma OutputPrefix(p: Primitives, prk: Bytes, info: Bytes, k: nat, length: nat)
    requires p.Correct() && k <= length
    ensures OutputKeyingMaterial(p, prk, info, k) == OutputKeyingMaterial(p, prk, info, length)[..k]
  {
    var m, n := BlockCount(k), BlockCount(length);
    BlocksLength(p, prk, info, m);
    BlocksLength(p, prk, info, n);
    BlocksPrefix(p, prk, info, m, n);
    assert Blocks(p, prk, info, n)[..k] == Blocks(p, prk, info, m)[..k];
  }

  /** Octet j of the output comes from block j / 32 + 1, whose counter octet is the RFC's own as
      long as the length obeys the RFC's bound of 255 blocks. */
  lemma {:induction false} OutputOctet(p: Primitives, prk: Bytes, info: Bytes, length: nat, j: nat)
    requires p.Correct() && j < length <= 255 * HASH_LEN
    ensures var i := j / HASH_LEN + 1;
            && 1 <= i <= 255
            && Block(p, prk, info, i) == p.hmac(prk, Block(p, prk, info, i - 1) + info + [i])
            && OutputKeyingMaterial(p, prk, info, length)[j] == Block(p, prk, info, i)[j % HASH_LEN]
  {
    var i := j / HASH_LEN + 1;
    BlocksLength(p, prk, info, i - 1);
    BlocksLength(p, prk, info, i);
    BlocksLength(p, prk, info, BlockCount(length));
    BlocksPrefix(p, prk, info, i, BlockCount(length));
    assert Blocks(p, prk, info, i)[j] == Block(p, prk, info, i)[j - HASH_LEN * (i - 1)];
  }

  /** The 32-byte keys of the protocol are a single block. */
  function HkdfKey(p: Primitives, salt: Bytes, ikm: Bytes, info: Bytes): Bytes {
    Block(p, HkdfExtract(p, salt, ikm), info, 1)
  }

  lemma HkdfKeyIsExpand(p: Primitives, salt: Bytes, ikm: Bytes, info: Bytes)
    requires p.Correct()
    ensures HkdfKey(p, salt, ikm, info) ==
            OutputKeyingMaterial(p, HkdfExtract(p, salt, ikm), info, KEY_LEN)
  {
    var prk := HkdfExtract(p, salt, ikm);
    assert Blocks(p, prk, info, 1) == [] + Block(p, prk, info, 1);
  }

  /** The next epoch's key: the old key is the HKDF salt, the fresh salt its input. */
  function DeriveRotatedKey(p: Primitives, oldKey: Bytes, salt: Bytes): Bytes {
    HkdfKey(p, oldKey, salt, Ascii("tcpx rotate key v1"))
  }

  lemma RotatedKeyLength(p: Primitives, oldKey: Bytes, salt: Bytes)
    requires p.Correct()
    ensures |DeriveRotatedKey(p, oldKey, salt)| == KEY_LEN
  {
  }
}
