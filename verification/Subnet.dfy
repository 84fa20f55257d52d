/** Subnet arithmetic: masks and prefixes, network and broadcast addresses. */
module Subnet {
  import opened Bytes
  import opened Ipv4

  type Address = b: Bytes | |b| == 4 witness [0, 0, 0, 0]

  function Pow2(k: nat): (p: nat)
    ensures p > 0
  {
    if k == 0 then 1 else 2 * Pow2(k - 1)
  }

  /* ------------------------------ bitwise operations ------------------------------ */

  datatype BitOp = And | OrNot

  function OnBits(op: BitOp, a: nat, b: nat): (r: nat)
    requires a < 2 && b < 2
    ensures r < 2
  {
    match op
    case And => a * b
    case OrNot => if a == 1 || b == 0 then 1 else 0
  }

  /** op applied bit by bit to two numbers of w bits. */
  function Bitwise(op: BitOp, a: nat, b: nat, w: nat): (r: nat)
    ensures r < Pow2(w)
  {
    if w == 0 then 0 else 2 * Bitwise(op, a / 2, b / 2, w - 1) + OnBits(op, a % 2, b % 2)
  }

  lemma {:induction false} Pow256IsPow2(n: nat)
    ensures Pow256(n) == Pow2(8 * n)
  {
    if n > 0 {
      Pow256IsPow2(n - 1);
      Pow2By8(8 * (n - 1));
    }
  }

  lemma Pow2By8(k: nat)
    ensures Pow2(k + 8) == 256 * Pow2(k)
  {
    assert Pow2(k + 2) == 4 * Pow2(k);
    assert Pow2(k + 4) == 4 * Pow2(k + 2);
    assert Pow2(k + 6) == 4 * Pow2(k + 4);
  }

  /** a followed by w zero bits. */
  function Shifted(a: nat, w: nat): nat {
    if w == 0 then a else 2 * Shifted(a, w - 1)
  }

  lemma {:induction false} ShiftedIsProduct(a: nat, w: nat)
    ensures Shifted(a, w) == a * Pow2(w)
  {
    if w > 0 {
      ShiftedIsProduct(a, w - 1);
      Doubled(a, Pow2(w - 1));
    }
  }

  lemma Doubled(a: nat, p: nat)
    ensures 2 * (a * p) == a * (2 * p)
  {}

  lemma {:induction false} ShiftedSum(a: nat, b: nat, w: nat)
    ensures Shifted(a + b, w) == Shifted(a, w) + Shifted(b, w)
  {
    if w > 0 { ShiftedSum(a, b, w - 1); }
  }

  lemma {:induction false} ShiftedPower(v: nat, w: nat)
    ensures Shifted(Pow2(v), w) == Pow2(v + w)
  {
    if w > 0 { ShiftedPower(v, w - 1); }
  }

  /** Numbers put side by side are worked on side by side. */
  lemma {:induction false} SideBySide(op: BitOp, a: nat, b: nat, c: nat, d: nat, v: nat, w: nat)
    requires c < Pow2(w) && d < Pow2(w)
    ensures Bitwise(op, Shifted(a, w) + c, Shifted(b, w) + d, v + w)
         == Shifted(Bitwise(op, a, b, v), w) + Bitwise(op, c, d, w)
  {
    hide Bitwise, Shifted, Pow2, OnBits;
    if w > 0 {
      DoubledShift(a, w);
      DoubledShift(b, w);
      DoubledShift(Bitwise(op, a, b, v), w);
      var c2, d2 := c / 2, d / 2;
      SideBySide(op, a, b, c2, d2, v, w - 1);
      Halves(Shifted(a, w - 1), c);
      Halves(Shifted(b, w - 1), d);
      LowBit(op, 2 * Shifted(a, w - 1) + c, 2 * Shifted(b, w - 1) + d, v + w);
      LowBit(op, c, d, w);
    } else {
      NoShift(op, a, b, c, d, v);
    }
  }

  lemma Halves(a: nat, c: nat)
    ensures (2 * a + c) / 2 == a + c / 2 && (2 * a + c) % 2 == c % 2
  {
  }

  lemma NoShift(op: BitOp, a: nat, b: nat, c: nat, d: nat, v: nat)
    requires c < Pow2(0) && d < Pow2(0)
    ensures Bitwise(op, Shifted(a, 0) + c, Shifted(b, 0) + d, v) == Shifted(Bitwise(op, a, b, v), 0) + Bitwise(op, c, d, 0)
  {
  }

  lemma LowBit(op: BitOp, a: nat, b: nat, w: nat)
    requires w > 0
    ensures Bitwise(op, a, b, w) == 2 * Bitwise(op, a / 2, b / 2, w - 1) + OnBits(op, a % 2, b % 2)
  {
  }

  lemma DoubledShift(a: nat, w: nat)
    requires w > 0
    ensures Shifted(a, w) == 2 * Shifted(a, w - 1) && Pow2(w) == 2 * Pow2(w - 1)
  {
  }

  /** op applied byte by byte. */
  function Bytewise(op: BitOp, x: Bytes, y: Bytes): (r: Bytes)
    requires |x| == |y|
    ensures |r| == |x|
  {
    seq(|x|, i requires 0 <= i < |x| => OnBytes(op, x[i], y[i]))
  }

  function OnBytes(op: BitOp, a: byte, b: byte): byte {
    assert Pow2(8) == 256;
    Bitwise(op, a, b, 8)
  }

  lemma OneByte(op: BitOp, a: byte, b: byte)
    ensures Pow2(8) == 256 && OnBytes(op, a, b) == Bitwise(op, a, b, 8)
  {
    hide Bitwise;
    Pow2By8(0);
  }

  lemma ByteShift(a: nat)
    ensures Shifted(a, 8) == 256 * a
  {
    assert Shifted(a, 1) == 2 * a;
    assert Shifted(a, 2) == 4 * a;
    assert Shifted(a, 4) == 4 * Shifted(a, 2);
    assert Shifted(a, 6) == 4 * Shifted(a, 4);
  }

  lemma OneMoreByte(op: BitOp, a: nat, b: nat, c: byte, d: byte, v: nat)
    ensures Bitwise(op, 256 * a + c, 256 * b + d, v + 8) == 256 * Bitwise(op, a, b, v) + OnBytes(op, c, d)
  {
    hide Bitwise, Shifted, Pow2, OnBytes;
    OneByte(op, c, d);
    ByteShift(a);
    ByteShift(b);
    ByteShift(Bitwise(op, a, b, v));
    SideBySide(op, a, b, c, d, v, 8);
  }

  lemma NoBits(op: BitOp)
    ensures Bitwise(op, 0, 0, 0) == 0
  {}

  lemma BytewiseSplit(op: BitOp, x: Bytes, y: Bytes)
    requires |x| == |y| > 0
    ensures var n := |x| - 1;
            && Bytewise(op, x, y)[..n] == Bytewise(op, x[..n], y[..n])
            && Bytewise(op, x, y)[n] == OnBytes(op, x[n], y[n])
  {
    hide OnBytes;
  }

  /** Working byte by byte is working on the whole number. */
  lemma {:induction false} BytewiseIsBitwise(op: BitOp, x: Bytes, y: Bytes)
    requires |x| == |y|
    ensures FromBE(Bytewise(op, x, y)) == Bitwise(op, FromBE(x), FromBE(y), 8 * |x|)
  {
    hide Pow2, Bitwise, Bytewise, OnBytes;
    if x == [] {
      NoBits(op);
    } else {
      var n := |x| - 1;
      BytewiseIsBitwise(op, x[..n], y[..n]);
      BytewiseSplit(op, x, y);
      OneMoreByte(op, FromBE(x[..n]), FromBE(y[..n]), x[n], y[n], 8 * n);
    }
  }

  /* ------------------------------ masks ------------------------------ */

  /** The mask of w bits whose first p are set. */
  function MaskOf(p: nat, w: nat): nat
    requires p <= w
  {
    Shifted(Pow2(p) - 1, w - p)
  }

  /** The number of leading ones of a number of w bits that has nothing but zeros after them. */
  function LeadingOnes(m: nat, w: nat): (r: Option<nat>)
    requires m < Pow2(w)
    ensures r.Some? ==> r.value <= w
  {
    if w == 0 || m == 0 then Some(0)
    else if m < Pow2(w - 1) then None
    else match LeadingOnes(m - Pow2(w - 1), w - 1)
      case Some(n) => Some(n + 1)
      case None => None
  }

  lemma MaskStep(p: nat, w: nat)
    requires 0 < p <= w
    ensures MaskOf(p, w) == Pow2(w - 1) + MaskOf(p - 1, w - 1)
  {
    ShiftedSum(Pow2(p - 1), Pow2(p - 1) - 1, w - p);
    ShiftedPower(p - 1, w - p);
  }

  lemma {:induction false} NoOnes(w: nat)
    ensures MaskOf(0, w) == 0
  {
    if w > 0 { NoOnes(w - 1); }
  }

  lemma MaskValue(p: nat, w: nat)
    requires p <= w
    ensures MaskOf(p, w) == Pow2(w) - Pow2(w - p)
  {
    ShiftedSum(Pow2(p) - 1, 1, w - p);
    ShiftedPower(p, w - p);
    ShiftedPower(0, w - p);
  }

  lemma {:induction false} LeadingOnesExactly(m: nat, w: nat, p: nat)
    requires m < Pow2(w)
    ensures LeadingOnes(m, w) == Some(p) <==> p <= w && m == MaskOf(p, w)
  {
    if 0 < p <= w {
      MaskStep(p, w);
      assert 0 <= MaskOf(p - 1, w - 1);
      if m >= Pow2(w - 1) {
        LeadingOnesExactly(m - Pow2(w - 1), w - 1, p - 1);
      }
    } else if p == 0 {
      NoOnes(w);
    }
  }

  /** The prefix length of a mask, if it is one; a text that is no IPv4 address parses to None. */
  function MaskToPrefix(mask: Option<Address>): (r: Option<nat>) {
    if mask.None? then None
    else
      Pow256IsPow2(4);
      LeadingOnes(FromBE(mask.value), 32)
  }

  /** A mask has prefix length p exactly if its bits are p ones and then zeros. */
  lemma MaskToPrefixExactly(mask: Option<Address>, p: nat)
    ensures MaskToPrefix(mask) == Some(p)
       <==> mask.Some? && p <= 32 && ToUint32(mask.value) == U32_LIMIT - Pow2(32 - p)
  {
    if mask.Some? {
      Pow256IsPow2(4);
      Widths();
      LeadingOnesExactly(FromBE(mask.value), 32, p);
      if p <= 32 {
        MaskValue(p, 32);
      }
    }
  }

  /* ------------------------------ network and broadcast ------------------------------ */

  /** Whether dst is the broadcast address of the gateway's subnet. */
  predicate SubnetBroadcast(dst: Option<Address>, gateway: Option<Address>, mask: Option<Address>) {
    && dst.Some? && gateway.Some? && mask.Some?
    && dst.value == Bytewise(OrNot, gateway.value, mask.value)
  }

  method IsSubnetBroadcast(dst: Option<Address>, gateway: Option<Address>, mask: Option<Address>) returns (yes: bool)
    ensures yes <==> SubnetBroadcast(dst, gateway, mask)
  {
    if dst.None? || gateway.None? || mask.None? {
      return false;
    }
    var broadcast := new byte[4](_ => 0);
    for i := 0 to 4
      invariant forall k :: 0 <= k < i ==> broadcast[k] == Bytewise(OrNot, gateway.value, mask.value)[k]
    {
      broadcast[i] := OnBytes(OrNot, gateway.value[i], mask.value[i]);
    }
    assert broadcast[..] == Bytewise(OrNot, gateway.value, mask.value);
    return dst.value == broadcast[..];
  }

  /** The text of the network address of ip; parse gives the IPv4 address that a text denotes. */
  function NetworkAddr(ip: string, mask: string, parse: string -> Option<Address>): string {
    if parse(ip).None? || parse(mask).None? then ip
    else Text(ToUint32(Bytewise(And, parse(ip).value, parse(mask).value)))
  }

  lemma {:induction false} WithOnes(a: nat, v: nat)
    requires a < Pow2(v)
    ensures Bitwise(And, a, Pow2(v) - 1, v) == a
    ensures Bitwise(OrNot, a, Pow2(v) - 1, v) == a
  {
    if v > 0 {
      WithOnes(a / 2, v - 1);
      assert (Pow2(v) - 1) / 2 == Pow2(v - 1) - 1;
    }
  }

  lemma {:induction false} WithZeros(a: nat, w: nat)
    ensures Bitwise(And, a, 0, w) == 0
    ensures Bitwise(OrNot, a, 0, w) == Pow2(w) - 1
  {
    if w > 0 {
      WithZeros(a / 2, w - 1);
    }
  }

  lemma DivBelow(g: nat, b: nat, n: nat)
    requires b > 0 && g < n * b
    ensures g / b < n && g / b * b + g % b == g
  {
    if g / b >= n {
      MulMono(b, n, g / b);
    }
  }

  lemma Split(g: nat, p: nat, z: nat, b: nat) returns (q: nat, r: nat)
    requires g < Pow2(p + z) && b == Pow2(z)
    ensures q < Pow2(p) && r == g % b
    ensures g == Shifted(q, z) + r
  {
    hide Pow2, Shifted;
    ShiftedPower(p, z);
    ShiftedIsProduct(Pow2(p), z);
    DivBelow(g, b, Pow2(p));
    q, r := g / b, g % b;
    ShiftedIsProduct(q, z);
  }

  lemma MaskedParts(q: nat, r: nat, p: nat, z: nat)
    requires q < Pow2(p) && r < Pow2(z)
    ensures Bitwise(And, Shifted(q, z) + r, MaskOf(p, p + z), p + z) == Shifted(q, z)
    ensures Bitwise(OrNot, Shifted(q, z) + r, MaskOf(p, p + z), p + z) == Shifted(q, z) + Pow2(z) - 1
  {
    hide Pow2, Shifted, Bitwise;
    SideBySide(And, q, Pow2(p) - 1, r, 0, p, z);
    SideBySide(OrNot, q, Pow2(p) - 1, r, 0, p, z);
    WithOnes(q, p);
    WithZeros(r, z);
  }

  /** With a mask of prefix length p, an address keeps its first p bits, and the rest become zeros
      in the network address and ones in the broadcast address. */
  lemma Masked(g: nat, p: nat, w: nat)
    requires p <= w && g < Pow2(w)
    ensures Bitwise(And, g, MaskOf(p, w), w) == g - g % Pow2(w - p)
    ensures Bitwise(OrNot, g, MaskOf(p, w), w) == g - g % Pow2(w - p) + Pow2(w - p) - 1
  {
    hide Pow2, Shifted, Bitwise, MaskOf;
    var z := w - p;
    var q, r := Split(g, p, z, Pow2(z));
    MaskedParts(q, r, p, z);
  }

  /** The number of addresses that share their first p bits. */
  function BlockSize(p: nat): (b: nat)
    requires p <= 32
    ensures b > 0
  {
    Pow2(32 - p)
  }

  /** The first address of the block that an address lies in. */
  function BlockStart(g: u32, p: nat): (n: u32)
    requires p <= 32
    ensures n <= g
  {
    hide BlockSize;
    g - g % BlockSize(p)
  }

  lemma PrefixOfMask(mask: Address, p: nat)
    requires p <= 32
    ensures MaskToPrefix(Some(mask)) == Some(p) <==> ToUint32(mask) == U32_LIMIT - BlockSize(p)
  {
    hide MaskToPrefix, ToUint32, Pow2;
    MaskToPrefixExactly(Some(mask), p);
  }

  lemma PrefixBound(mask: Address, p: nat)
    ensures MaskToPrefix(Some(mask)) == Some(p) ==> p <= 32
  {
    MaskToPrefixExactly(Some(mask), p);
  }

  /** The byte-wise forms in 32-bit arithmetic. */
  lemma MaskedAddress(g: Address, mask: Address, p: nat)
    requires p <= 32 && MaskToPrefix(Some(mask)) == Some(p)
    ensures ToUint32(Bytewise(And, g, mask)) == BlockStart(ToUint32(g), p)
    ensures ToUint32(Bytewise(OrNot, g, mask)) == BlockStart(ToUint32(g), p) + BlockSize(p) - 1
  {
    hide Pow2, FromBE, Bitwise, Bytewise, Pow256, LeadingOnes, MaskOf;
    Pow256IsPow2(4);
    LeadingOnesExactly(FromBE(mask), 32, p);
    Masked(FromBE(g), p, 32);
    BytewiseIsBitwise(And, g, mask);
    BytewiseIsBitwise(OrNot, g, mask);
  }

  /** The main result: for a mask of prefix length p, dst is the subnet broadcast address exactly if
      it is the network address plus 2^(32-p) - 1, which is to say the last address of the
      gateway's block. */
  lemma SubnetBroadcastExactly(dst: Address, gateway: Address, mask: Address, p: nat)
    requires p <= 32 && MaskToPrefix(Some(mask)) == Some(p)
    ensures SubnetBroadcast(Some(dst), Some(gateway), Some(mask))
       <==> ToUint32(dst) == ToUint32(Bytewise(And, gateway, mask)) + BlockSize(p) - 1
    ensures SubnetBroadcast(Some(dst), Some(gateway), Some(mask))
       <==> (ToUint32(dst) / BlockSize(p) == ToUint32(gateway) / BlockSize(p)
          && (ToUint32(dst) + 1) % BlockSize(p) == 0)
  {
    hide BlockSize, FromBE, Bytewise, MaskToPrefix;
    MaskedAddress(gateway, mask, p);
    var last := Bytewise(OrNot, gateway, mask);
    BytesRoundTrip(0, dst);
    BytesRoundTrip(0, last);
    LastOfBlock(ToUint32(dst), ToUint32(gateway), BlockSize(p));
  }

  lemma LastOfBlock(d: nat, g: nat, b: nat)
    requires b > 0
    ensures d == g - g % b + b - 1 <==> d / b == g / b && (d + 1) % b == 0
  {
    var q := g / b;
    assert g - g % b == b * q;
    if d == b * q + b - 1 {
      ModUnique(d, b, q, b - 1);
      ModUnique(d + 1, b, q + 1, 0);
    }
    if d / b == q && (d + 1) % b == 0 {
      var r := d % b;
      assert d + 1 == b * q + (r + 1);
      if r + 1 < b { ModUnique(d + 1, b, q, r + 1); }
    }
  }

  /** The network address is the multiple of the block size at or below the address: the address
      itself exactly if it starts a block. */
  lemma NetworkAddrStartsBlock(ip: string, mask: string, parse: string -> Option<Address>, p: nat)
    requires p <= 32 && parse(ip).Some? && parse(mask).Some? && MaskToPrefix(parse(mask)) == Some(p)
    ensures NetworkAddr(ip, mask, parse) == Text(BlockStart(ToUint32(parse(ip).value), p))
  {
    hide Text, ToUint32, MaskToPrefix, BlockStart, Bytewise;
    MaskedAddress(parse(ip).value, parse(mask).value, p);
  }

  /* ------------------------------ destinations that are not forwarded ------------------------------ */

  /** The IPv4 address that a library's address value of 4 or 16 bytes stands for, if any. */
  function To4(ip: Bytes): Option<Address> {
    if |ip| == 4 then Some(ip)
    else if |ip| == 16 && (forall i :: 0 <= i < 10 ==> ip[i] == 0) && ip[10] == ip[11] == 0xFF then Some(ip[12..])
    else None
  }

  predicate IsBroadcast(dst: Bytes) {
    To4(dst) == Some([255, 255, 255, 255])
  }

  /** Of the two forms of an address, only the short one is ever recognised as multicast. */
  predicate IsMulticast(dst: Bytes) {
    |dst| == 4 && 0xE0 <= dst[0] <= 0xEF
  }

  predicate Filtered(dst: Bytes, gateway: Option<Address>, mask: Option<Address>) {
    IsBroadcast(dst) || IsMulticast(dst) || SubnetBroadcast(To4(dst), gateway, mask)
  }

  /** In either form, the limited broadcast address and the last address of the gateway's block are
      filtered, and no other address of the block is unless it is that or multicast. */
  lemma FilteredInBlock(dst: Bytes, gateway: Address, mask: Address, p: nat)
    requires p <= 32 && MaskToPrefix(Some(mask)) == Some(p) && To4(dst).Some? && !IsMulticast(dst)
    ensures Filtered(dst, Some(gateway), Some(mask)) <==>
            var d := ToUint32(To4(dst).value);
            d == U32_LIMIT - 1 || d == ToUint32(Bytewise(And, gateway, mask)) + BlockSize(p) - 1
  {
    hide FromBE, MaskToPrefix, BlockSize, Bytewise, To4;
    var v: Address := [255, 255, 255, 255];
    SubnetBroadcastExactly(To4(dst).value, gateway, mask, p);
    AllOnes();
    BytesRoundTrip(0, To4(dst).value);
    BytesRoundTrip(0, v);
  }

  /** The 16-byte form of an address. */
  function Mapped(a: Address): Bytes {
    [0, 0, 0, 0, 0, 0, 0, 0, 0, 0, 0xFF, 0xFF] + a
  }

  /** Exactly the 4-byte forms and the mapped 16-byte ones stand for IPv4 addresses. */
  lemma To4Exactly(ip: Bytes, a: Address)
    ensures To4(ip) == Some(a) <==> ip == a || ip == Mapped(a)
  {
    if To4(ip) == Some(a) && |ip| == 16 {
      assert ip == ip[..12] + ip[12..];
      assert ip[..12] == [0, 0, 0, 0, 0, 0, 0, 0, 0, 0, 0xFF, 0xFF];
    }
    assert Mapped(a)[12..] == a;
  }

  /** The first byte is the number divided by 2^24. */
  lemma FirstByte(a: Address)
    ensures ToUint32(a) / 0x100_0000 == a[0]
  {
    FourBytes(a);
  }

  /** In the 4-byte form an address is recognised as multicast exactly if its first four bits are 1110;
      in the 16-byte form never. */
  lemma MulticastExactly(a: Address)
    ensures IsMulticast(a) <==> ToUint32(a) / 0x1000_0000 == 14
    ensures !IsMulticast(Mapped(a))
  {
    FirstByte(a);
  }

  /** So, with a mask of prefix length p, a destination is filtered exactly if it is the limited
      broadcast address, the last address of the gateway's block, or, in the 4-byte form only, a
      multicast address. */
  lemma FilteredExactly(a: Address, gateway: Address, mask: Address, p: nat)
    requires p <= 32 && MaskToPrefix(Some(mask)) == Some(p)
    ensures var last := ToUint32(Bytewise(And, gateway, mask)) + BlockSize(p) - 1;
            && (Filtered(a, Some(gateway), Some(mask)) <==>
                  ToUint32(a) == U32_LIMIT - 1 || ToUint32(a) == last || ToUint32(a) / 0x1000_0000 == 14)
            && (Filtered(Mapped(a), Some(gateway), Some(mask)) <==>
                  ToUint32(a) == U32_LIMIT - 1 || ToUint32(a) == last)
  {
    hide ToUint32, MaskToPrefix, BlockSize, Bytewise, To4, IsMulticast, Mapped;
    To4Exactly(a, a);
    To4Exactly(Mapped(a), a);
    MulticastExactly(a);
    FilteredInBlock(Mapped(a), gateway, mask, p);
    if !IsMulticast(a) {
      FilteredInBlock(a, gateway, mask, p);
    }
  }

  lemma AllOnes()
    ensures ToUint32([255, 255, 255, 255]) == U32_LIMIT - 1
  {
    var v: Address := [255, 255, 255, 255];
    assert v[..3] == [255, 255, 255] && v[..3][..2] == [255, 255] && v[..3][..2][..1] == [255];
    assert FromBE([255]) == 255 by { assert [255 as byte][..0] == []; }
    assert FromBE([255, 255]) == 0xFFFF;
    assert FromBE([255, 255, 255]) == 0xFF_FFFF;
  }
}
