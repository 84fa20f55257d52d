/** IPv4 addresses: 32-bit numbers, their four bytes, and their dotted text. */
module Ipv4 {
  import opened Bytes

  /** The four bytes, most significant first, as one number. */
  function ToUint32(v: Bytes): u32
    requires |v| == 4
  {
    Widths();
    FromBE(v)
  }

  function ToBytes(v: u32): (b: Bytes)
    ensures |b| == 4
  {
    BE(v, 4)
  }

  lemma BytesRoundTrip(v: u32, b: Bytes)
    requires |b| == 4
    ensures ToUint32(ToBytes(v)) == v
    ensures ToBytes(ToUint32(b)) == b
  {
    Widths();
    FieldRoundTrip(v, 4);
    BEOfFromBE(b);
  }

  function Digit(n: nat): char
    requires n < 10
  {
    '0' + n as char
  }

  /** A byte in decimal, without leading zeros. */
  function Decimal(n: byte): (s: string)
    ensures 1 <= |s| <= 3 && '.' !in s
  {
    if n < 10 then [Digit(n)]
    else if n < 100 then [Digit(n / 10), Digit(n % 10)]
    else [Digit(n / 100), Digit(n / 10 % 10), Digit(n % 10)]
  }

  function DigitsValue(s: string): int {
    if s == "" then 0 else 10 * DigitsValue(s[..|s| - 1]) + (s[|s| - 1] as int - '0' as int)
  }

  lemma DecimalValue(n: byte)
    ensures DigitsValue(Decimal(n)) == n
  {
    var s := Decimal(n);
    var front := s[..|s| - 1];
    if |s| >= 2 {
      assert DigitsValue(front) == n / 10 by {
        assert front[..|front| - 1] == if |s| == 2 then "" else [Digit(n / 100)];
        assert DigitsValue([Digit(n / 100)]) == n / 100;
      }
    }
  }

  lemma DecimalInjective(m: byte, n: byte)
    requires Decimal(m) == Decimal(n)
    ensures m == n
  {
    DecimalValue(m);
    DecimalValue(n);
  }

  /** What net.IP.String prints for an IPv4 address. */
  function Text(v: u32): string {
    var b := ToBytes(v);
    Decimal(b[0]) + "." + (Decimal(b[1]) + "." + (Decimal(b[2]) + "." + Decimal(b[3])))
  }

  /** The text spells the four bytes in decimal, most significant first, without leading zeros. */
  lemma TextSpells(v: u32) returns (a: string, b: string, c: string, d: string)
    ensures Text(v) == a + "." + b + "." + c + "." + d
    ensures v == DigitsValue(a) * 0x100_0000 + DigitsValue(b) * 0x1_0000 + DigitsValue(c) * 0x100 + DigitsValue(d)
    ensures forall s :: s in {a, b, c, d} ==> s != "" && '.' !in s && (|s| > 1 ==> s[0] != '0') && 0 <= DigitsValue(s) < 256
  {
    var x := ToBytes(v);
    a, b, c, d := Decimal(x[0]), Decimal(x[1]), Decimal(x[2]), Decimal(x[3]);
    BytesRoundTrip(v, x);
    FourBytes(x);
    DecimalValue(x[0]);
    DecimalValue(x[1]);
    DecimalValue(x[2]);
    DecimalValue(x[3]);
    hide DigitsValue, ToBytes, ToUint32;
    assert a + "." + (b + "." + (c + "." + d)) == a + "." + b + "." + c + "." + d;
  }

  /** The number of four bytes, written out. */
  lemma FourBytes(b: Bytes)
    requires |b| == 4
    ensures ToUint32(b) == b[0] as int * 0x100_0000 + b[1] as int * 0x1_0000 + b[2] as int * 0x100 + b[3] as int
  {
    var x: int, y: int, z: int, w: int := b[0], b[1], b[2], b[3];
    assert b[..3][..2][..1] == [b[0]] && b[..3][..2] == [b[0], b[1]] && b[..3] == [b[0], b[1], b[2]];
    assert FromBE([b[0]]) == x by { assert [b[0]][..0] == []; }
    assert FromBE([b[0], b[1]]) == x * 256 + y;
    assert FromBE([b[0], b[1], b[2]]) == (x * 256 + y) * 256 + z;
    assert FromBE(b) == ((x * 256 + y) * 256 + z) * 256 + w;
  }

  function FirstDot(s: string): (n: nat)
    ensures n <= |s|
  {
    if s == "" || s[0] == '.' then 0 else 1 + FirstDot(s[1..])
  }

  lemma {:induction false} FirstDotAfter(a: string, x: string)
    requires '.' !in a
    ensures FirstDot(a + "." + x) == |a|
  {
    if a != "" {
      FirstDotAfter(a[1..], x);
      assert (a + "." + x)[1..] == a[1..] + "." + x;
    } else {
      assert (a + "." + x)[0] == '.';
    }
  }

  lemma SplitAtDot(a: string, x: string, b: string, y: string)
    requires '.' !in a && '.' !in b
    requires a + "." + x == b + "." + y
    ensures a == b && x == y
  {
    FirstDotAfter(a, x);
    FirstDotAfter(b, y);
    var s, t := a + "." + x, b + "." + y;
    assert s[..|a|] == a && t[..|b|] == b;
    assert s[|a| + 1..] == x && t[|b| + 1..] == y;
  }

  /** Maps keyed by text and maps keyed by number are the same thing. */
  lemma TextInjective(u: u32, v: u32)
    requires Text(u) == Text(v)
    ensures u == v
  {
    var a, b := ToBytes(u), ToBytes(v);
    var a3, b3 := Decimal(a[2]) + "." + Decimal(a[3]), Decimal(b[2]) + "." + Decimal(b[3]);
    var a2, b2 := Decimal(a[1]) + "." + a3, Decimal(b[1]) + "." + b3;
    SplitAtDot(Decimal(a[0]), a2, Decimal(b[0]), b2);
    SplitAtDot(Decimal(a[1]), a3, Decimal(b[1]), b3);
    SplitAtDot(Decimal(a[2]), Decimal(a[3]), Decimal(b[2]), Decimal(b[3]));
    DecimalInjective(a[0], b[0]);
    DecimalInjective(a[1], b[1]);
    DecimalInjective(a[2], b[2]);
    DecimalInjective(a[3], b[3]);
    assert a == b;
    BytesRoundTrip(u, a);
    BytesRoundTrip(v, b);
  }
}
