// What the payload checksum is good for: no single altered byte goes unnoticed.
module Checksums {
  import opened Prelude
  import opened Frames

  // The factor that undoes a multiplication by the FNV prime modulo 2^64.
  const INVERSE: nat := 0xce96_5057_aff6_957b

  lemma {:induction false} ByMultiples(x: int, t: int)
    requires 0 <= x < TWO_64
    ensures (x + TWO_64 * t) % TWO_64 == x
  {
  }

  // Multiplication by the prime loses nothing modulo 2^64.
  lemma {:induction false} TimesPrimeBack(x: nat)
    requires x < TWO_64
    ensures x * FNV_PRIME % TWO_64 * INVERSE % TWO_64 == x
  {
    var q, r := x * FNV_PRIME / TWO_64, x * FNV_PRIME % TWO_64;
    var k := FNV_PRIME * INVERSE / TWO_64;
    assert FNV_PRIME * INVERSE == 1 + k * TWO_64;
    assert r == x * FNV_PRIME - q * TWO_64;
    assert r * INVERSE == x * (FNV_PRIME * INVERSE) - q * INVERSE * TWO_64;
    assert r * INVERSE == x + TWO_64 * (x * k - q * INVERSE);
    ByMultiples(x, x * k - q * INVERSE);
  }

  lemma {:induction false} TimesPrimeApart(x: nat, y: nat)
    requires x < TWO_64 && y < TWO_64 && x != y
    ensures x * FNV_PRIME % TWO_64 != y * FNV_PRIME % TWO_64
  {
    TimesPrimeBack(x);
    TimesPrimeBack(y);
  }

  function Power2(bits: nat): nat {
    if bits == 0 then 1 else 2 * Power2(bits - 1)
  }

  lemma {:induction false} XorFits(a: nat, b: nat, bits: nat)
    ensures Xor(a, b, bits) < Power2(bits)
  {
    if bits > 0 {
      XorFits(a / 2, b / 2, bits - 1);
    }
  }

  lemma {:induction false} XorBitsApart(a: nat, b: nat, c: nat, d: nat, bits: nat)
    requires a < Power2(bits) && b < Power2(bits) && c < Power2(bits) && d < Power2(bits)
    requires (a != c && b == d) || (a == c && b != d)
    ensures Xor(a, b, bits) != Xor(c, d, bits)
  {
    if bits > 0 && LowBit(a, b) == LowBit(c, d) {
      HalfFits(a, bits); HalfFits(b, bits); HalfFits(c, bits); HalfFits(d, bits);
      HalvesApart(a, b, c, d);
      hide Power2, LowBit;
      XorBitsApart(a / 2, b / 2, c / 2, d / 2, bits - 1);
      LowBitFirst(a, b, c, d, bits);
    } else if bits > 0 {
      hide Power2;
      LowBitFirst(a, b, c, d, bits);
    }
  }

  function LowBit(a: nat, b: nat): nat {
    (a % 2 + b % 2) % 2
  }

  lemma {:induction false} HalfFits(x: nat, bits: nat)
    requires bits > 0 && x < Power2(bits)
    ensures x / 2 < Power2(bits - 1)
  {
  }

  lemma {:induction false} HalvesApart(a: nat, b: nat, c: nat, d: nat)
    requires (a != c && b == d) || (a == c && b != d)
    requires LowBit(a, b) == LowBit(c, d)
    ensures (a / 2 != c / 2 && b / 2 == d / 2) || (a / 2 == c / 2 && b / 2 != d / 2)
  {
    Parity(a % 2, b % 2, c % 2, d % 2);
    SameNumber(a, c);
    SameNumber(b, d);
  }

  lemma {:induction false} Parity(a: nat, b: nat, c: nat, d: nat)
    requires a < 2 && b < 2 && c < 2 && d < 2 && (a + b) % 2 == (c + d) % 2
    ensures a == c <==> b == d
  {
  }

  lemma {:induction false} SameNumber(x: nat, y: nat)
    ensures x == y <==> x / 2 == y / 2 && x % 2 == y % 2
  {
  }

  lemma {:induction false} LowBitFirst(a: nat, b: nat, c: nat, d: nat, bits: nat)
    requires bits > 0
    requires LowBit(a, b) != LowBit(c, d) || Xor(a / 2, b / 2, bits - 1) != Xor(c / 2, d / 2, bits - 1)
    ensures Xor(a, b, bits) != Xor(c, d, bits)
  {
    var x, y := Xor(a / 2, b / 2, bits - 1), Xor(c / 2, d / 2, bits - 1);
    assert Xor(a, b, bits) == LowBit(a, b) + 2 * x && Xor(c, d, bits) == LowBit(c, d) + 2 * y;
    assert LowBit(a, b) < 2 && LowBit(c, d) < 2;
    hide LowBit, Xor;
  }

  lemma {:induction false} ByteIsEightBits()
    ensures Power2(8) == 256
  {
    assert Power2(4) == 16;
    assert Power2(5) == 32 && Power2(6) == 64 && Power2(7) == 128;
  }

  lemma {:induction false} XorLow(x: nat, b: Byte)
    ensures XorByte(x, b) / 256 == x / 256 && XorByte(x, b) % 256 == Xor(x % 256, b, 8)
  {
    ByteIsEightBits();
    XorFits(x % 256, b, 8);
    hide Xor, Power2;
  }

  // Combining with a byte keeps different hashes apart, and different bytes apart.
  lemma {:induction false} XorApart(x: nat, y: nat, b: Byte, c: Byte)
    requires (x != y && b == c) || (x == y && b != c)
    ensures XorByte(x, b) != XorByte(y, c)
  {
    XorLow(x, b);
    XorLow(y, c);
    ByteIsEightBits();
    hide XorByte, Xor, Power2;
    if x % 256 != y % 256 || b != c {
      XorBitsApart(x % 256, b, y % 256, c, 8);
    }
  }

  lemma {:induction false} XorStays(hash: nat, b: Byte)
    requires hash < TWO_64
    ensures XorByte(hash, b) < TWO_64
  {
    XorLow(hash, b);
    hide XorByte, Xor;
  }

  // One byte of the hash.
  function Round(hash: nat, b: Byte): nat {
    XorByte(hash, b) * FNV_PRIME % TWO_64
  }

  lemma {:induction false} RoundApart(x: nat, y: nat, b: Byte, c: Byte)
    requires x < TWO_64 && y < TWO_64 && ((x != y && b == c) || (x == y && b != c))
    ensures Round(x, b) < TWO_64 && Round(y, c) < TWO_64 && Round(x, b) != Round(y, c)
  {
    hide XorByte;
    XorApart(x, y, b, c);
    XorStays(x, b);
    XorStays(y, c);
    TimesPrimeApart(XorByte(x, b), XorByte(y, c));
  }

  // Different hashes stay different over the same bytes.
  lemma {:induction false} HashesStayApart(x: nat, y: nat, data: Bytes)
    requires x < TWO_64 && y < TWO_64 && x != y
    ensures ChecksumFrom(x, data) != ChecksumFrom(y, data)
    decreases |data|
  {
    hide XorByte;
    if data != [] {
      RoundApart(x, y, data[0], data[0]);
      HashesStayApart(Round(x, data[0]), Round(y, data[0]), data[1..]);
    }
  }

  // The two differ in the one byte at `i`.
  predicate OneByteApart(p: Bytes, q: Bytes, i: nat) {
    |p| == |q| && i < |p| && p[i] != q[i] && p[..i] == q[..i] && p[i + 1..] == q[i + 1..]
  }

  lemma {:induction false} AlteredFrom(hash: nat, p: Bytes, q: Bytes, i: nat)
    requires hash < TWO_64 && OneByteApart(p, q, i)
    ensures ChecksumFrom(hash, p) != ChecksumFrom(hash, q)
    decreases i
  {
    hide XorByte;
    if i == 0 {
      RoundApart(hash, hash, p[0], q[0]);
      HashesStayApart(Round(hash, p[0]), Round(hash, q[0]), p[1..]);
    } else {
      assert p[0] == p[..i][0] && q[0] == q[..i][0];
      assert p[1..][..i - 1] == p[..i][1..] && q[1..][..i - 1] == q[..i][1..];
      assert p[1..][i..] == p[i + 1..] && q[1..][i..] == q[i + 1..];
      XorStays(hash, p[0]);
      AlteredFrom(Round(hash, p[0]), p[1..], q[1..], i - 1);
    }
  }

  // Two payloads that differ in exactly one byte have different checksums.
  lemma {:induction false} OneAlteredByteShows(p: Bytes, q: Bytes, i: nat)
    requires OneByteApart(p, q, i)
    ensures Checksum(p) != Checksum(q)
  {
    AlteredFrom(FNV_OFFSET_BASIS, p, q, i);
  }

  // The published values of 64-bit FNV-1a for the empty string and for "a".
  lemma {:induction false} KnownChecksums()
    ensures Checksum([]) == 0xcbf2_9ce4_8422_2325 && Checksum([0x61]) == 0xaf63_dc4c_8601_ec8c
  {
    var h := FNV_OFFSET_BASIS;
    assert h % 256 == 0x25 && h / 256 * 256 == 0xcbf2_9ce4_8422_2300;
    assert Xor(0x25, 0x61, 8) == 0x44 by { XorOf25And61(); }
    hide Xor;
    assert XorByte(h, 0x61) == 0xcbf2_9ce4_8422_2344;
    assert [0x61][1..] == [];
    assert ChecksumFrom(h, [0x61]) == ChecksumFrom(0xcbf2_9ce4_8422_2344 * FNV_PRIME % TWO_64, []);
  }

  lemma {:induction false} XorOf25And61()
    ensures Xor(0x25, 0x61, 8) == 0x44
  {
    assert Xor(0, 0, 1) == 0;
    assert Xor(0, 1, 2) == 1;
    assert Xor(1, 3, 3) == 2;
    assert Xor(2, 6, 4) == 4;
    assert Xor(4, 12, 5) == 8;
    assert Xor(9, 24, 6) == 17;
    assert Xor(18, 48, 7) == 34;
  }
}
