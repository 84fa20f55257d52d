/** Bytes, big-endian integers and byte strings. */
module Bytes {

  type byte = x: int | 0 <= x < 256
  type Bytes = seq<byte>

  const U16_LIMIT: nat := 0x1_0000
  const U32_LIMIT: nat := 0x1_0000_0000
  const U64_LIMIT: nat := 0x1_0000_0000_0000_0000

  type u16 = x: nat | x < U16_LIMIT
  type u32 = x: nat | x < U32_LIMIT
  type u64 = x: nat | x < U64_LIMIT

  datatype Option<+T> = None | Some(value: T)

  datatype Result<+T, +E> = Ok(value: T) | Err(error: E)

  function Pow256(k: nat): (p: nat)
    ensures p > 0
  {
    if k == 0 then 1 else 256 * Pow256(k - 1)
  }

  lemma Widths()
    ensures Pow256(1) == 256 && Pow256(2) == U16_LIMIT
    ensures Pow256(4) == U32_LIMIT && Pow256(8) == U64_LIMIT
  {
    assert Pow256(2) == U16_LIMIT;
    assert Pow256(4) == U32_LIMIT;
    assert Pow256(6) == 0x1_0000_0000_0000;
  }

  /** The low k bytes of n, most significant first. */
  function BE(n: nat, k: nat): (b: Bytes)
    ensures |b| == k
  {
    if k == 0 then [] else BE(n / 256, k - 1) + [n % 256]
  }

  function FromBE(b: Bytes): (n: nat)
    ensures n < Pow256(|b|)
  {
    if b == [] then 0 else 256 * FromBE(b[..|b| - 1]) + b[|b| - 1]
  }

  /** Reading back a big-endian field gives the number modulo the field's width. */
  lemma {:induction false} FromBEOfBE(n: nat, k: nat)
    ensures FromBE(BE(n, k)) == n % Pow256(k)
  {
    if k > 0 {
      FromBEOfBE(n / 256, k - 1);
      var b := BE(n, k);
      assert b[..k - 1] == BE(n / 256, k - 1);
      ModSplit(n, Pow256(k - 1));
    }
  }

  lemma ModSplit(n: nat, p: nat)
    requires p > 0
    ensures 256 * ((n / 256) % p) + n % 256 == n % (256 * p)
  {
    var q, r := n / 256 / p, (n / 256) % p;
    var s := 256 * r + n % 256;
    assert n == (256 * p) * q + s by {
      assert n / 256 == p * q + r;
    }
    assert s < 256 * p;
    ModUnique(n, 256 * p, q, s);
  }

  lemma ModUnique(n: nat, m: nat, q: nat, s: nat)
    requires m > 0 && s < m && n == m * q + s
    ensures n % m == s && n / m == q
  {
    var p := n / m;
    if p < q {
      MulMono(m, p + 1, q);
    } else if q < p {
      MulMono(m, q + 1, p);
    }
  }

  lemma MulMono(m: nat, a: int, b: int)
    requires a <= b
    ensures m * a <= m * b
  {
  }

  lemma FieldRoundTrip(n: nat, k: nat)
    requires n < Pow256(k)
    ensures FromBE(BE(n, k)) == n
  {
    FromBEOfBE(n, k);
    ModUnique(n, Pow256(k), 0, n);
  }

  /** And the bytes of a field are determined by the number they spell. */
  lemma {:induction false} BEOfFromBE(b: Bytes)
    ensures BE(FromBE(b), |b|) == b
  {
    if b != [] {
      var front := b[..|b| - 1];
      BEOfFromBE(front);
      assert b == front + [b[|b| - 1]];
    }
  }

  lemma BEInjective(m: nat, n: nat, k: nat)
    requires m < Pow256(k) && n < Pow256(k) && BE(m, k) == BE(n, k)
    ensures m == n
  {
    FieldRoundTrip(m, k);
    FieldRoundTrip(n, k);
  }

  /** The bytes of an ASCII string. */
  function Ascii(s: string): (b: Bytes)
    ensures |b| == |s|
  {
    seq(|s|, i requires 0 <= i < |s| => s[i] as int % 256)
  }

  /** The concatenation of a list of byte strings. */
  function Flatten(chunks: seq<Bytes>): Bytes {
    if chunks == [] then [] else chunks[0] + Flatten(chunks[1..])
  }
}
