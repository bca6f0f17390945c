/** Fixed-width unsigned integers, bitwise OR, and the big-endian layout of encoding/binary. */
module Bytes {

  type byte = x: int | 0 <= x < 0x100
  type uint16 = x: int | 0 <= x < 0x1_0000
  type uint32 = x: int | 0 <= x < 0x1_0000_0000
  type uint64 = x: int | 0 <= x < 0x1_0000_0000_0000_0000

  const TWO_16: int := 0x1_0000
  const TWO_32: int := 0x1_0000_0000
  const TWO_64: int := 0x1_0000_0000_0000_0000

  /** The `|` operator. */
  function Or(x: nat, y: nat): nat {
    if x == 0 then y
    else if y == 0 then x
    else 2 * Or(x / 2, y / 2) + (if x % 2 == 1 || y % 2 == 1 then 1 else 0)
  }

  function Pow2(k: nat): (p: nat)
    ensures p >= 1
  {
    if k == 0 then 1 else 2 * Pow2(k - 1)
  }

  /** The bits of `a`, shifted left by `k`, and the bits of a number below 2^k do not meet. */
  lemma {:induction false} OrDisjoint(a: nat, k: nat, b: nat)
    requires b < Pow2(k)
    ensures Or(a * Pow2(k), b) == a * Pow2(k) + b
  {
    if k > 0 && a > 0 && b > 0 {
      OrDisjoint(a, k - 1, b / 2);
      var x := a * Pow2(k);
      Doubled(a, Pow2(k - 1));
      assert x == 2 * (a * Pow2(k - 1));
      assert x / 2 == a * Pow2(k - 1) && x % 2 == 0;
    }
  }

  lemma Doubled(a: nat, p: nat)
    ensures a * (2 * p) == 2 * (a * p)
  {
  }

  lemma {:induction false} OrBound(x: nat, y: nat, k: nat)
    requires x < Pow2(k) && y < Pow2(k)
    ensures Or(x, y) < Pow2(k)
  {
    if k > 0 && x > 0 && y > 0 {
      OrBound(x / 2, y / 2, k - 1);
    }
  }

  /** Bit `k` of `n`, counted from the lowest. */
  predicate Bit(n: nat, k: nat) {
    if k == 0 then n % 2 == 1 else Bit(n / 2, k - 1)
  }

  lemma {:induction false} NoBits(k: nat)
    ensures !Bit(0, k)
  {
    if k > 0 { NoBits(k - 1); }
  }

  /** A bit is set in the result exactly where one of the operands has it. */
  lemma {:induction false} OrBits(x: nat, y: nat, k: nat)
    ensures Bit(Or(x, y), k) <==> Bit(x, k) || Bit(y, k)
  {
    NoBits(k);
    if x != 0 && y != 0 && k > 0 {
      OrBits(x / 2, y / 2, k - 1);
      assert Or(x, y) / 2 == Or(x / 2, y / 2);
    }
  }

  lemma Powers()
    ensures Pow2(4) == 16 && Pow2(5) == 32 && Pow2(6) == 64 && Pow2(7) == 128 && Pow2(8) == 256
  {
    assert Pow2(4) == 2 * Pow2(3) && Pow2(3) == 2 * Pow2(2) && Pow2(2) == 2 * Pow2(1) && Pow2(1) == 2;
    assert Pow2(8) == 2 * Pow2(7) && Pow2(7) == 2 * Pow2(6) && Pow2(6) == 2 * Pow2(5) && Pow2(5) == 2 * Pow2(4);
  }

  function Put16(n: uint16): (s: seq<byte>)
    ensures |s| == 2 && Get16(s[0], s[1]) == n
  {
    [n / 256, n % 256]
  }

  function Get16(hi: byte, lo: byte): uint16 {
    hi * 256 + lo
  }

  lemma Put16Get16(hi: byte, lo: byte)
    ensures Put16(Get16(hi, lo)) == [hi, lo]
  {
  }

  function Put32(n: uint32): (s: seq<byte>)
    ensures |s| == 4 && Get32(s) == n
  {
    var (hi, lo) := (n / TWO_16, n % TWO_16);
    var s := Put16(hi) + Put16(lo);
    assert s[0] == Put16(hi)[0] && s[1] == Put16(hi)[1] && s[2] == Put16(lo)[0] && s[3] == Put16(lo)[1];
    s
  }

  function Get32(s: seq<byte>): uint32
    requires |s| == 4
  {
    Get16(s[0], s[1]) * TWO_16 + Get16(s[2], s[3])
  }

  lemma Put32Get32(s: seq<byte>)
    requires |s| == 4
    ensures Put32(Get32(s)) == s
  {
    var n := Get32(s);
    assert n / TWO_16 == Get16(s[0], s[1]) && n % TWO_16 == Get16(s[2], s[3]);
    Put16Get16(s[0], s[1]);
    Put16Get16(s[2], s[3]);
  }

  /** Network byte order: the first byte weighs most. */
  lemma BigEndian(n: uint16, m: uint32)
    ensures Put16(n)[0] as int * 0x100 + Put16(n)[1] == n
    ensures var s := Put32(m);
            s[0] as int * 0x100_0000 + s[1] as int * 0x1_0000 + s[2] as int * 0x100 + s[3] == m
  {
  }

  /** A buffer write of `s` at `at`. */
  method WriteAt(data: array<byte>, at: nat, s: seq<byte>)
    requires at + |s| <= data.Length
    modifies data
    ensures data[..] == old(data[..at]) + s + old(data[at + |s|..])
    ensures forall j :: at + |s| <= j < data.Length ==> data[j] == old(data[j])
  {
    for i := 0 to |s|
      invariant data[..at] == old(data[..at])
      invariant data[at + i..] == old(data[at + i..])
      invariant forall j :: at + i <= j < data.Length ==> data[j] == old(data[j])
      invariant data[at..at + i] == s[..i]
    {
      data[at + i] := s[i];
    }
    assert data[..] == data[..at] + data[at..at + |s|] + data[at + |s|..];
  }
}
