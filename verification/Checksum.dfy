/** The 64-bit FNV-1a checksum of an entry's payload (src/wal/config.rs, `checksum64`). */
module Checksum {
  import opened Basics

  newtype byte = x: int | 0 <= x < 256

  /** A 64-bit word. */
  type word = x: int | 0 <= x < TWO_64

  const FNV_OFFSET: nat := 0xcbf29ce484222325
  const FNV_PRIME: nat := 0x00000100000001B3

  /** Bitwise exclusive or of the low `bits` bits. */
  function Xor(a: nat, b: nat, bits: nat): nat
    decreases bits, a, b
  {
    if bits == 0 then 0 else 2 * Xor(a / 2, b / 2, bits - 1) + (if a % 2 == b % 2 then 0 else 1)
  }

  function Pow2(n: nat): nat { if n == 0 then 1 else 2 * Pow2(n - 1) }

  lemma {:induction false} XorBound(a: nat, b: nat, bits: nat)
    ensures Xor(a, b, bits) < Pow2(bits)
  {
    if bits > 0 { XorBound(a / 2, b / 2, bits - 1); }
  }

  lemma {:induction false} XorTwice(a: nat, b: nat, bits: nat)
    requires a < Pow2(bits)
    ensures Xor(Xor(a, b, bits), b, bits) == a
  {
    if bits > 0 {
      var x := Xor(a, b, bits);
      XorTwice(a / 2, b / 2, bits - 1);
      XorHalves(a, b, bits);
      XorHalves(x, b, bits);
    }
  }

  /** The lowest bit and the rest of an exclusive or. */
  lemma XorHalves(a: nat, b: nat, bits: nat)
    requires bits > 0
    ensures Xor(a, b, bits) / 2 == Xor(a / 2, b / 2, bits - 1)
    ensures Xor(a, b, bits) % 2 == if a % 2 == b % 2 then 0 else 1
    ensures Xor(a, b, bits) == 2 * (Xor(a, b, bits) / 2) + Xor(a, b, bits) % 2
  {
  }

  lemma {:induction false} XorCommutes(a: nat, b: nat, bits: nat)
    ensures Xor(a, b, bits) == Xor(b, a, bits)
  {
    if bits > 0 { XorCommutes(a / 2, b / 2, bits - 1); }
  }

  /** The bit of a number at a position. */
  function Bit(x: nat, i: nat): nat { if i == 0 then x % 2 else Bit(x / 2, i - 1) }

  /** A bit of the exclusive or is set exactly when the two bits differ. */
  lemma {:induction false} XorBits(a: nat, b: nat, bits: nat, i: nat)
    requires i < bits
    ensures Bit(Xor(a, b, bits), i) == 1 <==> Bit(a, i) != Bit(b, i)
  {
    XorHalves(a, b, bits);
    if i > 0 { XorBits(a / 2, b / 2, bits - 1, i - 1); }
  }

  lemma Pow2Of64()
    ensures Pow2(64) == TWO_64
  {
    assert Pow2(8) == 256;
    Pow2Adds(8, 8);
    Pow2Adds(16, 16);
    Pow2Adds(32, 32);
  }

  lemma {:induction false} XorZero(a: nat, bits: nat)
    requires a < Pow2(bits)
    ensures Xor(a, 0, bits) == a
  {
    if bits > 0 { XorZero(a / 2, bits - 1); }
  }

  lemma {:induction false} XorSplit(high: nat, low: nat, b: nat, k: nat, n: nat)
    requires low < Pow2(k) && b < Pow2(k) && high < Pow2(n)
    ensures Xor(low + Pow2(k) * high, b, k + n) == Xor(low, b, k) + Pow2(k) * high
  {
    if k == 0 {
      XorZero(high, n);
    } else {
      var p := Pow2(k - 1) * high;
      Doubled(Pow2(k - 1), high);
      assert Pow2(k) * high == 2 * p;
      assert (low + 2 * p) / 2 == low / 2 + p && (low + 2 * p) % 2 == low % 2;
      XorSplit(high, low / 2, b / 2, k - 1, n);
      assert k - 1 + n == k + n - 1;
    }
  }

  /** Mixing a byte into a hash changes its lowest byte alone. */
  lemma OnlyLowByteMixed(high: nat, low: nat, b: byte)
    requires low < 256 && low + 256 * high < TWO_64
    ensures Xor(low + 256 * high, b as int, 64) == Xor(low, b as int, 8) + 256 * high
  {
    assert Pow2(8) == 256;
    Pow2Of64();
    Pow2Adds(8, 56);
    XorSplit(high, low, b as int, 8, 56);
  }

  lemma {:induction false} Pow2Adds(a: nat, b: nat)
    ensures Pow2(a + b) == Pow2(a) * Pow2(b)
  {
    if a > 0 {
      Pow2Adds(a - 1, b);
      assert a + b == (a - 1 + b) + 1 && Pow2(a + b) == 2 * Pow2(a - 1 + b);
      Doubled(Pow2(a - 1), Pow2(b));
    }
  }

  lemma Doubled(x: nat, y: nat)
    ensures 2 * (x * y) == (2 * x) * y
  {
  }

  /** One byte folded into the hash: xor, then a wrapping multiplication. */
  function Fold(h: word, b: byte): word { (Xor(h, b as int, 64) * FNV_PRIME) % TWO_64 }

  function FoldAll(h: word, data: seq<byte>): word {
    if data == [] then h else Fold(FoldAll(h, Front(data)), Last(data))
  }

  function Fnv1a(data: seq<byte>): word { FoldAll(FNV_OFFSET, data) }

  method Checksum64(data: seq<byte>) returns (hash: word)
    ensures hash == Fnv1a(data)
  {
    hash := FNV_OFFSET;
    var i := 0;
    while i < |data|
      invariant i <= |data| && hash == FoldAll(FNV_OFFSET, data[..i])
    {
      var mixed := Xor(hash, data[i] as int, 64);
      hash := (mixed * FNV_PRIME) % TWO_64;
      assert Front(data[..i + 1]) == data[..i];
      i := i + 1;
    }
    assert data[..i] == data;
  }

  /** Two published values of 64-bit FNV-1a: of nothing, and of the letter "a". */
  lemma KnownValues(a: byte)
    requires a == 0x61
    ensures Fnv1a([]) == 0xcbf29ce484222325
    ensures Fnv1a([a]) == 0xaf63dc4c8601ec8c
  {
    assert Front([a]) == [] && FoldAll(FNV_OFFSET, []) == FNV_OFFSET;
    assert Fnv1a([a]) == Fold(FNV_OFFSET, a);
    OnlyLowByteMixed(0xcbf29ce4842223, 0x25, a);
    LowByteWithA(0x25, a as int);
    assert FNV_OFFSET == 0x25 + 256 * 0xcbf29ce4842223;
    Multiplied(Xor(FNV_OFFSET, a as int, 64));
  }

  lemma Multiplied(x: nat)
    requires x == 0xcbf29ce484222344
    ensures (x * FNV_PRIME) % TWO_64 == 0xaf63dc4c8601ec8c
  {
  }

  lemma LowByteWithA(x: nat, y: nat)
    requires x == 0x25 && y == 0x61
    ensures Xor(x, y, 8) == 0x44
  {
    LowBits(x / 16, y / 16);
    XorHalves(x, y, 8);
    XorHalves(x / 2, y / 2, 7);
    XorHalves(x / 2 / 2, y / 2 / 2, 6);
    XorHalves(x / 2 / 2 / 2, y / 2 / 2 / 2, 5);
    assert x / 2 / 2 / 2 / 2 == x / 16 && y / 2 / 2 / 2 / 2 == y / 16;
  }

  lemma LowBits(x: nat, y: nat)
    requires x == 2 && y == 6
    ensures Xor(x, y, 4) == 4
  {
    XorHalves(x, y, 4);
    XorHalves(x / 2, y / 2, 3);
    XorHalves(x / 2 / 2, y / 2 / 2, 2);
    XorHalves(x / 2 / 2 / 2, y / 2 / 2 / 2, 1);
  }

  /** Multiplication by a number with an inverse modulo `m` is injective modulo `m`. */
  lemma MulInjective(x: nat, y: nat, p: nat, q: nat, j: nat, m: nat)
    requires p * q == 1 + j * m && x < m && y < m
    requires (x * p) % m == (y * p) % m
    ensures x == y
  {
    var d := (x * p) / m - (y * p) / m;
    assert x * p == m * ((x * p) / m) + (x * p) % m;
    assert y * p == m * ((y * p) / m) + (y * p) % m;
    assert (x - y) * p == m * d;
    var e := d * q - (x - y) * j;
    assert (x - y) * p * q == m * d * q;
    assert (x - y) * (p * q) == (x - y) + (x - y) * j * m;
    assert x - y == m * e by {
      assert m * e == m * d * q - m * ((x - y) * j);
    }
    NoSmallMultiple(x - y, e, m);
  }

  lemma NoSmallMultiple(z: int, e: int, m: int)
    requires m > 0 && z == m * e && -m < z < m
    ensures z == 0
  {
    assert e >= 1 ==> m * e >= m;
    assert e <= -1 ==> m * e <= -m;
  }

  /** The inverse of the prime modulo 2^64 (the prime is odd). */
  const INVERSE: nat := 0xce965057aff6957b
  const QUOTIENT: nat := 887285111055

  lemma FoldSeparatesMixes(a: nat, b: nat)
    requires a < TWO_64 && b < TWO_64 && a != b
    ensures (a * FNV_PRIME) % TWO_64 != (b * FNV_PRIME) % TWO_64
  {
    if (a * FNV_PRIME) % TWO_64 == (b * FNV_PRIME) % TWO_64 {
      MulInjective(a, b, FNV_PRIME, INVERSE, QUOTIENT, TWO_64);
    }
  }

  lemma FoldKeepsDifference(g: word, h: word, a: byte)
    requires g != h
    ensures Fold(g, a) != Fold(h, a)
  {
    Pow2Of64();
    XorBound(g, a as int, 64);
    XorBound(h, a as int, 64);
    XorTwice(g, a as int, 64);
    XorTwice(h, a as int, 64);
    FoldSeparatesMixes(Xor(g, a as int, 64), Xor(h, a as int, 64));
  }

  lemma FoldSeparates(h: word, a: byte, b: byte)
    requires a != b
    ensures Fold(h, a) != Fold(h, b)
  {
    Pow2Of64();
    var x, y := a as int, b as int;
    XorBound(h, x, 64);
    XorBound(h, y, 64);
    XorCommutes(h, x, 64);
    XorCommutes(h, y, 64);
    XorTwice(x, h, 64);
    XorTwice(y, h, 64);
    FoldSeparatesMixes(Xor(h, x, 64), Xor(h, y, 64));
  }

  /** Changing exactly one byte of a payload of any length changes the hash, from any starting value. */
  lemma {:induction false} OneByteChangesHash(h: word, data: seq<byte>, i: nat, b: byte)
    requires i < |data| && data[i] != b
    ensures FoldAll(h, data[i := b]) != FoldAll(h, data)
    decreases |data|
  {
    var changed := data[i := b];
    if i == |data| - 1 {
      assert Front(changed) == Front(data);
      FoldSeparates(FoldAll(h, Front(data)), data[i], b);
    } else {
      assert Front(changed) == Front(data)[i := b];
      OneByteChangesHash(h, Front(data), i, b);
      FoldKeepsDifference(FoldAll(h, Front(changed)), FoldAll(h, Front(data)), Last(data));
    }
  }

  lemma OneByteDetected(data: seq<byte>, i: nat, b: byte)
    requires i < |data| && data[i] != b
    ensures Fnv1a(data[i := b]) != Fnv1a(data)
  {
    OneByteChangesHash(FNV_OFFSET, data, i, b);
  }
}
