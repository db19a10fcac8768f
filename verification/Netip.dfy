/** IP addresses as the scanner handles them: two families over one 128-bit
    space, and the byte arithmetic that steps through it. */
module Netip {
  import opened Arith
  import opened Lcg

  const TWO_32: nat := 0x1_0000_0000
  const TWO_64: nat := 0x1_0000_0000_0000_0000
  const TWO_128: nat := 0x1_0000_0000_0000_0000_0000_0000_0000_0000

  /** First address of ::ffff:0:0/96, where IPv4 addresses are embedded. */
  const MAPPED_BASE: nat := 0xffff_0000_0000

  newtype byte = x: int | 0 <= x < 256
  newtype uint64 = x: int | 0 <= x < 0x1_0000_0000_0000_0000

  datatype Address = V4(value: nat) | V6(value: nat)

  function BitLen(a: Address): nat {
    if a.V4? then 32 else 128
  }

  type Addr = a: Address | a.value < (if a.V4? then TWO_32 else TWO_128) witness V4(0)

  /** The 16-byte form, read as a number. */
  function As16(a: Addr): (v: nat)
    ensures v < TWO_128
  {
    if a.V4? then MAPPED_BASE + a.value else a.value
  }

  predicate Mapped(v: nat) {
    MAPPED_BASE <= v < MAPPED_BASE + TWO_32
  }

  function Unmap(v: nat): Addr
    requires v < TWO_128
  {
    if Mapped(v) then V4(v - MAPPED_BASE) else V6(v)
  }

  /** Going through the 16-byte form loses nothing, except the family of an
      IPv6 address inside the embedding block. */
  lemma UnmapAs16(a: Addr)
    ensures Unmap(As16(a)) == a <==> a.V4? || !Mapped(a.value)
  {
  }

  lemma Pow2Values()
    ensures Pow2(32) == TWO_32 && Pow2(64) == TWO_64 && Pow2(128) == TWO_128
  {
    Pow2Of32();
    Pow2Add(32, 32);
    Pow2Add(64, 64);
  }

  lemma Pow2Of32()
    ensures Pow2(32) == TWO_32
  {
    assert Pow2(4) == 16;
    assert Pow2(8) == 0x100;
    assert Pow2(12) == 0x1000;
    assert Pow2(16) == 0x1_0000;
    Pow2Add(16, 16);
  }

  lemma {:induction false} Pow2Add(i: nat, j: nat)
    ensures Pow2(i + j) == Pow2(i) * Pow2(j)
  {
    if i > 0 {
      Pow2Add(i - 1, j);
      assert i - 1 + j == i + j - 1;
      TwiceTimes(Pow2(i - 1), Pow2(j));
    }
  }

  lemma TwiceTimes(p: int, q: int)
    ensures (2 * p) * q == 2 * (p * q)
  {
  }

  lemma {:induction false} Pow2Monotone(i: nat, j: nat)
    requires i <= j
    ensures Pow2(i) <= Pow2(j)
  {
    if i < j {
      Pow2Monotone(i, j - 1);
    }
  }

  // ----- prefixes -----

  datatype Prefix = Prefix(addr: Addr, bits: nat)

  ghost predicate ValidPrefix(p: Prefix) {
    p.bits <= BitLen(p.addr)
  }

  function HostBits(p: Prefix): nat
    requires ValidPrefix(p)
  {
    BitLen(p.addr) - p.bits
  }

  function Size(p: Prefix): (n: nat)
    requires ValidPrefix(p)
    ensures n >= 1
  {
    Pow2(HostBits(p))
  }

  function WithValue(a: Addr, v: nat): Addr
    requires v < (if a.V4? then TWO_32 else TWO_128)
  {
    if a.V4? then V4(v) else V6(v)
  }

  function RoundDown(v: nat, n: nat): (r: nat)
    requires n > 0
    ensures r <= v
  {
    Quotient(v, n);
    v - v % n
  }

  /** The prefix with its host bits cleared. */
  function Masked(p: Prefix): (q: Prefix)
    requires ValidPrefix(p)
    ensures ValidPrefix(q) && q.bits == p.bits && q.addr.V4? == p.addr.V4?
  {
    Prefix(WithValue(p.addr, RoundDown(p.addr.value, Size(p))), p.bits)
  }

  predicate Contains(p: Prefix, a: Addr)
    requires ValidPrefix(p)
  {
    p.addr.V4? == a.V4? && p.addr.value / Size(p) == a.value / Size(p)
  }

  function NextAddr(a: Addr): (n: Address)
  {
    if a.V4? then V4(a.value + 1) else V6(a.value + 1)
  }

  function Limit(a: Addr): nat {
    if a.V4? then TWO_32 else TWO_128
  }

  /** A masked prefix is the interval that starts at its address. */
  lemma PrefixInterval(p: Prefix)
    requires ValidPrefix(p)
    ensures var q := Masked(p);
            && q.addr.value + Size(p) <= Limit(p.addr)
            && forall a: Addr :: Contains(q, a) <==>
                 a.V4? == q.addr.V4? && q.addr.value <= a.value < q.addr.value + Size(p)
  {
    var q, n := Masked(p), Size(p);
    var k := p.addr.value / n;
    Quotient(p.addr.value, n);
    assert q.addr.value == n * k;
    AddMultiple(0, k, n);
    QuotientUnique(q.addr.value, n, k, 0);
    forall a: Addr
      ensures a.value / n == k <==> n * k <= a.value < n * k + n
    {
      Quotient(a.value, n);
      if n * k <= a.value < n * k + n {
        QuotientUnique(a.value, n, k, a.value - n * k);
      }
    }
    SizeDividesLimit(p);
    RoundedBelow(p.addr.value, n, k, Limit(p.addr), Pow2(p.bits));
  }

  lemma SizeDividesLimit(p: Prefix)
    requires ValidPrefix(p)
    ensures Limit(p.addr) == Size(p) * Pow2(p.bits)
  {
    Pow2Values();
    Pow2Add(HostBits(p), p.bits);
    assert HostBits(p) + p.bits == BitLen(p.addr);
  }

  lemma RoundedBelow(v: nat, n: nat, k: nat, limit: nat, f: nat)
    requires n > 0 && n * k <= v < limit && limit == n * f
    ensures n * k + n <= limit
  {
    if k >= f {
      MulMonotone(f, k, n);
    } else {
      MulMonotone(k + 1, f, n);
    }
  }

  // ----- the 16 bytes -----

  function Pow256(n: nat): (p: nat)
    ensures p >= 1
  {
    if n == 0 then 1 else 256 * Pow256(n - 1)
  }

  /** Big-endian value of a byte string. */
  function Value(b: seq<byte>): nat {
    if b == [] then 0 else Value(b[..|b| - 1]) * 256 + b[|b| - 1] as nat
  }

  function ToBytes(v: nat, n: nat): (b: seq<byte>)
    ensures |b| == n
  {
    if n == 0 then [] else ToBytes(v / 256, n - 1) + [(v % 256) as byte]
  }

  lemma {:induction false} ValueToBytes(v: nat, n: nat)
    requires v < Pow256(n)
    ensures Value(ToBytes(v, n)) == v
  {
    if n > 0 {
      ValueToBytes(v / 256, n - 1);
      var b := ToBytes(v, n);
      assert b[..|b| - 1] == ToBytes(v / 256, n - 1);
    }
  }

  lemma {:induction false} ValueBound(b: seq<byte>)
    ensures Value(b) < Pow256(|b|)
  {
    if b != [] {
      ValueBound(b[..|b| - 1]);
    }
  }

  function Times(x: int, p: int): int {
    x * p
  }

  /** Writing one byte moves the value by that byte's weight. */
  lemma {:induction false} ValueUpdate(b: seq<byte>, i: nat, x: byte)
    requires i < |b|
    ensures Value(b[i := x]) == Value(b) + Times(x as int - b[i] as int, Pow256(|b| - 1 - i))
  {
    var n := |b| - 1;
    var c := b[i := x];
    if i == n {
      assert c[..n] == b[..n];
    } else {
      assert c[..n] == b[..n][i := x];
      assert n - i == (n - 1 - i) + 1;
      assert Pow256(n - i) == 256 * Pow256(n - 1 - i);
      hide Times, Pow256;
      ValueUpdate(b[..n], i, x);
      TimesScale(x as int - b[i] as int, Pow256(n - 1 - i));
    }
  }

  lemma TimesScale(d: int, p: int)
    ensures Times(d, p) * 256 == Times(d, 256 * p)
  {
    assert (d * p) * 256 == d * (256 * p);
  }

  lemma Pow256Is128()
    ensures Pow256(16) == TWO_128
  {
    assert Pow256(4) == 0x1_0000_0000;
    assert Pow256(8) == 0x1_0000_0000_0000_0000;
    assert Pow256(12) == 0x1_0000_0000_0000_0000_0000_0000;
  }

  /** The buffer's value plus what the carry still owes before byte i. */
  ghost function Owed(b: seq<byte>, i: int, carry: nat): int
    requires -1 <= i < |b|
  {
    Value(b) + Times(carry, Pow256(|b| - 1 - i))
  }

  /** One step of the carry loop leaves the sum unchanged. */
  lemma CarryStep(b: seq<byte>, i: nat, carry: nat)
    requires i < |b|
    ensures var sum := b[i] as nat + carry % 256;
            Owed(b[i := (sum % 256) as byte], i - 1, carry / 256 + sum / 256) == Owed(b, i, carry)
  {
    var sum := b[i] as nat + carry % 256;
    assert Pow256(|b| - i) == 256 * Pow256(|b| - 1 - i);
    hide Value, Pow256, Times;
    ValueUpdate(b, i, (sum % 256) as byte);
    CarryAlgebra(b[i] as int, carry, sum, Pow256(|b| - 1 - i));
  }

  lemma CarryAlgebra(x: int, carry: int, sum: int, p: int)
    requires sum == x + carry % 256
    ensures Times(sum % 256 - x, p) + Times(carry / 256 + sum / 256, 256 * p) == Times(carry, p)
  {
    var d, next := sum % 256 - x, carry / 256 + sum / 256;
    assert d + next * 256 == carry;
    CarryDistribute(d, next, p);
  }

  lemma CarryDistribute(d: int, next: int, p: int)
    ensures d * p + next * (256 * p) == (d + next * 256) * p
  {
  }

  /** The carry loop over a 16-byte buffer, with a 64-bit carry: no
      intermediate sum leaves uint64. */
  method AddOffset(b: array<byte>, offset: uint64)
    requires b.Length == 16
    modifies b
    ensures Value(b[..]) == (Value(old(b[..])) + offset as nat) % TWO_128
  {
    hide Value, Owed;
    ghost var target := Value(b[..]) + offset as nat;
    var carry := offset;
    var i := 15;
    CarryStart(b[..], carry as nat);
    while i >= 0 && carry > 0
      invariant -1 <= i <= 15
      invariant Owed(b[..], i, carry as nat) == target
    {
      var sum: uint64 := b[i] as uint64 + carry % 256;
      CarryStep(b[..], i, carry as nat);
      ghost var before := b[..];
      b[i] := (sum % 256) as byte;
      assert b[..] == before[i := (sum % 256) as byte];
      carry := carry / 256 + sum / 256;
      i := i - 1;
    }
    CarryEnd(b[..], carry as nat, i);
  }

  lemma CarryStart(b: seq<byte>, offset: nat)
    requires |b| == 16
    ensures Owed(b, 15, offset) == Value(b) + offset
  {
    assert Pow256(0) == 1;
  }

  lemma CarryEnd(b: seq<byte>, carry: nat, i: int)
    requires |b| == 16 && -1 <= i <= 15 && (i == -1 || carry == 0)
    ensures Value(b) == Owed(b, i, carry) % TWO_128
  {
    ValueBound(b);
    Pow256Is128();
    if carry == 0 {
      assert Owed(b, i, carry) == Value(b) by { assert Times(0, Pow256(15 - i)) == 0; }
      QuotientUnique(Value(b), TWO_128, 0, Value(b));
    } else {
      assert 15 - i == 16;
      hide Value;
      assert Times(carry, TWO_128) == TWO_128 * carry;
      QuotientUnique(Owed(b, i, carry), TWO_128, carry, Value(b));
    }
  }

  /** The same loop with an unbounded carry. */
  method AddBigOffset(b: array<byte>, offset: nat)
    requires b.Length == 16
    modifies b
    ensures Value(b[..]) == (Value(old(b[..])) + offset) % TWO_128
  {
    hide Value, Owed;
    ghost var target := Value(b[..]) + offset;
    var carry: nat := offset;
    var i := 15;
    CarryStart(b[..], carry);
    while i >= 0 && carry > 0
      invariant -1 <= i <= 15
      invariant Owed(b[..], i, carry) == target
    {
      var sum := b[i] as nat + carry % 256;
      CarryStep(b[..], i, carry);
      ghost var before := b[..];
      b[i] := (sum % 256) as byte;
      assert b[..] == before[i := (sum % 256) as byte];
      carry := carry / 256 + sum / 256;
      i := i - 1;
    }
    CarryEnd(b[..], carry, i);
  }

  /** The address offset places after a, read through the 16-byte form. */
  function Plus(a: Addr, offset: nat): Addr {
    Unmap((As16(a) + offset) % TWO_128)
  }

  method AddOffsetToAddr(a: Addr, offset: uint64) returns (r: Addr)
    ensures r == Plus(a, offset as nat)
  {
    hide Value, ToBytes, As16, Unmap;
    var b := new byte[16](i requires 0 <= i < 16 => ToBytes(As16(a), 16)[i]);
    assert b[..] == ToBytes(As16(a), 16);
    Pow256Is128();
    ValueToBytes(As16(a), 16);
    AddOffset(b, offset);
    var bytes := b[..];
    r := Unmap(Value(bytes));
  }

  method AddBigOffsetToAddr(a: Addr, offset: nat) returns (r: Addr)
    ensures r == Plus(a, offset)
  {
    hide Value, ToBytes, As16, Unmap;
    var b := new byte[16](i requires 0 <= i < 16 => ToBytes(As16(a), 16)[i]);
    assert b[..] == ToBytes(As16(a), 16);
    Pow256Is128();
    ValueToBytes(As16(a), 16);
    AddBigOffset(b, offset);
    var bytes := b[..];
    r := Unmap(Value(bytes));
  }

  /** Stepping stays in the family, except that IPv4 overflows into the IPv6
      addresses behind ::ffff:0:0/96, and IPv6 inside that block is IPv4. */
  lemma PlusMeaning(a: Addr, j: nat)
    ensures a.V4? && a.value + j < 0x1_0000_0000 ==> Plus(a, j) == V4(a.value + j)
    ensures a.V4? && 0x1_0000_0000 <= a.value + j && 0xffff_0000_0000 + a.value + j < TWO_128 ==>
              Plus(a, j) == V6(0xffff_0000_0000 + a.value + j)
    ensures a.V6? && a.value + j < TWO_128 ==>
              Plus(a, j) ==
              if 0xffff_0000_0000 <= a.value + j < 0x1_0000_0000_0000 then V4(a.value + j - 0xffff_0000_0000)
              else V6(a.value + j)
  {
    var v := As16(a) + j;
    if v < TWO_128 {
      QuotientUnique(v, TWO_128, 0, v);
    }
  }

  /** Adding in two stages is adding once, even when the first stage crosses
      into or out of the embedding block. */
  lemma PlusPlus(a: Addr, i: nat, j: nat)
    requires As16(a) + i + j < TWO_128
    ensures Plus(Plus(a, i), j) == Plus(a, i + j)
  {
    var v := As16(a) + i;
    QuotientUnique(v, TWO_128, 0, v);
    assert As16(Unmap(v)) == v;
  }
}
