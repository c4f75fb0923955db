/** Bitwise exclusive-or on naturals and the checksums built from it. */
module Bits {
  import opened Bytes

  const M64: nat := 0x1_0000_0000_0000_0000

  function Pow2(k: nat): (p: nat)
    ensures p >= 1
  {
    if k == 0 then 1 else 2 * Pow2(k - 1)
  }

  function Xor(a: nat, b: nat): nat
    decreases a + b
  {
    if a == 0 && b == 0 then 0 else (a % 2 + b % 2) % 2 + 2 * Xor(a / 2, b / 2)
  }

  lemma {:induction false} XorBound(a: nat, b: nat, k: nat)
    requires a < Pow2(k) && b < Pow2(k)
    ensures Xor(a, b) < Pow2(k)
    decreases k
  {
    if a != 0 || b != 0 { XorBound(a / 2, b / 2, k - 1); }
  }

  lemma Pow2By4(k: nat)
    ensures Pow2(k + 4) == 0x10 * Pow2(k)
  {
    assert Pow2(k + 4) == 2 * (2 * Pow2(k + 2));
  }

  lemma Pow2By16(k: nat)
    ensures Pow2(k + 16) == 0x1_0000 * Pow2(k)
  {
    hide Pow2;
    Pow2By4(k);
    Pow2By4(k + 4);
    Pow2By4(k + 8);
    Pow2By4(k + 12);
  }

  lemma Pow2Values()
    ensures Pow2(8) == 0x100
    ensures Pow2(32) == 0x1_0000_0000
    ensures Pow2(64) == 0x1_0000_0000_0000_0000
  {
    assert Pow2(0) == 1;
    hide Pow2;
    Pow2By4(0);
    Pow2By4(4);
    Pow2By16(0);
    Pow2By16(16);
    Pow2By16(32);
    Pow2By16(48);
  }

  lemma {:induction false} XorTwice(a: nat, b: nat)
    ensures Xor(Xor(a, b), b) == a
    decreases a + b
  {
    if a != 0 || b != 0 {
      XorTwice(a / 2, b / 2);
      XorUnfold(a, b);
      hide Xor;
      XorParts(a, b, Xor(a, b), Xor(a / 2, b / 2));
      XorUnfold(Xor(a, b), b);
    }
  }

  lemma XorParts(a: nat, b: nat, x: nat, half: nat)
    requires x == (a % 2 + b % 2) % 2 + 2 * half
    ensures x / 2 == half && (x % 2 + b % 2) % 2 == a % 2
  {
  }

  lemma XorUnfold(a: nat, b: nat)
    ensures Xor(a, b) == (a % 2 + b % 2) % 2 + 2 * Xor(a / 2, b / 2)
  {
    if a == 0 && b == 0 { assert Xor(0, 0) == 0; }
  }

  lemma {:induction false} XorSymmetric(a: nat, b: nat)
    ensures Xor(a, b) == Xor(b, a)
    decreases a + b
  {
    if a != 0 || b != 0 { XorSymmetric(a / 2, b / 2); }
  }

  lemma HalfXor(a: nat, b: nat)
    ensures Xor(a, b) / 2 == Xor(a / 2, b / 2) && Xor(a, b) % 2 == (a % 2 + b % 2) % 2
  {
    XorUnfold(a, b);
    hide Xor;
  }

  lemma BitAssoc(a: nat, b: nat, c: nat)
    requires a < 2 && b < 2 && c < 2
    ensures ((a + b) % 2 + c) % 2 == (a + (b + c) % 2) % 2
  {
  }

  lemma SameHalves(x: nat, y: nat)
    requires x / 2 == y / 2 && x % 2 == y % 2
    ensures x == y
  {
  }

  lemma AssocBit(a: nat, b: nat, c: nat)
    ensures Xor(Xor(a, b), c) % 2 == Xor(a, Xor(b, c)) % 2
  {
    hide Xor;
    HalfXor(a, b);
    HalfXor(b, c);
    HalfXor(Xor(a, b), c);
    HalfXor(a, Xor(b, c));
    BitAssoc(a % 2, b % 2, c % 2);
  }

  lemma AssocHalf(a: nat, b: nat, c: nat)
    ensures Xor(Xor(a, b), c) / 2 == Xor(Xor(a / 2, b / 2), c / 2)
    ensures Xor(a, Xor(b, c)) / 2 == Xor(a / 2, Xor(b / 2, c / 2))
  {
    hide Xor;
    HalfXor(a, b);
    HalfXor(b, c);
    HalfXor(Xor(a, b), c);
    HalfXor(a, Xor(b, c));
  }

  lemma {:induction false} XorAssoc(a: nat, b: nat, c: nat)
    ensures Xor(Xor(a, b), c) == Xor(a, Xor(b, c))
    decreases a + b + c
  {
    if a != 0 || b != 0 || c != 0 {
      hide Xor;
      XorAssoc(a / 2, b / 2, c / 2);
      AssocBit(a, b, c);
      AssocHalf(a, b, c);
      SameHalves(Xor(Xor(a, b), c), Xor(a, Xor(b, c)));
    }
  }

  /** `n >> k` */
  function Down(n: nat, k: nat): (r: nat)
    ensures r <= n
    decreases k
  {
    if k == 0 then n else Down(n / 2, k - 1)
  }

  lemma {:induction false} XorShifted(a: nat, b: nat, k: nat)
    ensures Down(Xor(a, b), k) == Xor(Down(a, k), Down(b, k))
    decreases k
  {
    hide Xor;
    if k != 0 {
      HalfXor(a, b);
      XorShifted(a / 2, b / 2, k - 1);
    }
  }

  lemma {:induction false} DownIs(n: nat, k: nat)
    ensures Down(n, k) == n / Pow2(k)
    decreases k
  {
    if k != 0 {
      DownIs(n / 2, k - 1);
      DivideTwice(n, Pow2(k - 1));
    }
  }

  lemma DivideTwice(n: nat, d: nat)
    requires d > 0
    ensures n / (2 * d) == n / 2 / d
  {
    var q, r := n / 2 / d, n / 2 % d;
    assert n == 2 * (d * q + r) + n % 2;
    assert n == (2 * d) * q + (2 * r + n % 2) && 2 * r + n % 2 < 2 * d;
    QuotientIs(n, 2 * d, q, 2 * r + n % 2);
  }

  lemma Distribute(d: nat, p: int, k: nat)
    ensures d * (p + 1 + k) == d * p + d + d * k && d * k >= 0
  {
  }

  lemma Steps(d: nat, p: int, q: int)
    ensures p < q ==> d * q >= d * p + d
  {
    if p < q { Distribute(d, p, q - p - 1); }
  }

  lemma QuotientIs(n: nat, d: nat, q: int, r: nat)
    requires n == d * q + r && r < d
    ensures n / d == q
  {
    var p := n / d;
    assert n == d * p + n % d;
    Steps(d, p, q);
    Steps(d, q, p);
  }

  lemma {:induction false} XorZero(a: nat, b: nat)
    requires Xor(a, b) == 0
    ensures a == b
    decreases a + b
  {
    if a != 0 || b != 0 {
      HalfXor(a, b);
      XorZero(a / 2, b / 2);
    }
  }

  lemma XorSelf(a: nat)
    ensures Xor(a, a) == 0
  {
    XorTwice(0, a);
    XorSymmetric(0, a);
    XorNothing(a);
  }

  lemma {:induction false} XorNothing(a: nat)
    ensures Xor(a, 0) == a
  {
    if a != 0 { XorNothing(a / 2); }
  }

  /** Two sums of two equal pairs: if z + x == w + y then z + w == x + y, bit by bit. */
  lemma XorCross(z: nat, x: nat, w: nat, y: nat)
    requires Xor(z, x) == Xor(w, y)
    ensures Xor(z, w) == Xor(x, y)
  {
    hide Xor;
    XorTwice(z, x);
    XorAssoc(w, y, x);
    assert z == Xor(w, Xor(y, x));
    XorSymmetric(y, x);
    XorSymmetric(w, Xor(x, y));
    XorTwice(Xor(x, y), w);
  }

  /** x -> x ^ (x >> k) loses nothing. */
  lemma XorShiftInjective(z: nat, w: nat, k: nat)
    requires k > 0 && Xor(z, Down(z, k)) == Xor(w, Down(w, k))
    ensures z == w
  {
    hide Xor;
    XorCross(z, Down(z, k), w, Down(w, k));
    XorShifted(z, w, k);
    var d := Xor(z, w);
    assert d == Down(d / 2, k - 1) <= d / 2;
    XorZero(z, w);
  }

  /** Multiplying by a number that has an inverse modulo 2^64 loses nothing. */
  lemma TimesInjective(x: u64, y: u64, m: nat, inverse: nat, c: nat)
    requires m * inverse == 1 + M64 * c && x * m % M64 == y * m % M64
    ensures x == y
  {
    var r := x * m % M64;
    TimesUndone(x, r, x * m / M64, m, inverse, c);
    TimesUndone(y, r, y * m / M64, m, inverse, c);
  }

  lemma TimesUndone(x: u64, r: nat, q: nat, m: nat, inverse: nat, c: nat)
    requires m * inverse == 1 + M64 * c && x * m == M64 * q + r
    ensures x == r * inverse % M64
  {
    assert r * inverse == x * (m * inverse) - M64 * (q * inverse);
    assert r * inverse == x + M64 * (x * c - q * inverse);
    ResidueIs(r * inverse, x, x * c - q * inverse);
  }

  lemma ResidueIs(n: nat, x: nat, k: int)
    requires n == x + M64 * k && x < M64
    ensures n % M64 == x
  {
  }

  function Xor32(a: u32, b: u32): u32 {
    Pow2Values();
    XorBound(a, b, 32);
    Xor(a, b)
  }

  function Xor64(a: u64, b: u64): u64 {
    Pow2Values();
    XorBound(a, b, 64);
    Xor(a, b)
  }

  // ── CRC-32 (reflected polynomial 0xEDB88320) ───────────────────────────────

  function CrcShift(reg: u32, k: nat): u32
    decreases k, reg
  {
    if k == 0 then reg
    else CrcShift(if reg % 2 == 1 then Xor32(reg / 2, 0xEDB8_8320) else reg / 2, k - 1)
  }

  function CrcFrom(reg: u32, s: bytes): u32
    decreases |s|
  {
    if |s| == 0 then reg else CrcFrom(CrcShift(Xor32(reg, s[0]), 8), s[1..])
  }

  function Crc32(s: bytes): u32 { Xor32(CrcFrom(0xFFFF_FFFF, s), 0xFFFF_FFFF) }

  lemma Xor32Injective(a: u32, b: u32, c: u32)
    requires a != b
    ensures Xor32(a, c) != Xor32(b, c) && Xor32(c, a) != Xor32(c, b)
  {
    XorTwice(a, c);
    XorTwice(b, c);
    XorSymmetric(a, c);
    XorSymmetric(b, c);
  }

  /** The polynomial has the top bit, which shifting has cleared: so a shifted register
      with it differs from every one without it. */
  lemma PolyShows(x: u32, y: u32)
    requires x < 0x8000_0000 && y < 0x8000_0000
    ensures Xor32(x, 0xEDB8_8320) != y
  {
    if Xor32(x, 0xEDB8_8320) == y {
      XorSymmetric(x, 0xEDB8_8320);
      XorTwice(0xEDB8_8320, x);
      Pow2Values();
      assert Pow2(32) == 2 * Pow2(31);
      XorBound(y, x, 31);
    }
  }

  lemma {:induction false} ShiftInjective(a: u32, b: u32, k: nat)
    requires a != b
    ensures CrcShift(a, k) != CrcShift(b, k)
    decreases k
  {
    if k != 0 {
      var x: u32, y: u32 := a / 2, b / 2;
      if a % 2 == 1 && b % 2 == 1 {
        Xor32Injective(x, y, 0xEDB8_8320);
      } else if a % 2 == 1 {
        PolyShows(x, y);
      } else if b % 2 == 1 {
        PolyShows(y, x);
      }
      hide Xor32;
      ShiftInjective(if a % 2 == 1 then Xor32(x, 0xEDB8_8320) else x, if b % 2 == 1 then Xor32(y, 0xEDB8_8320) else y, k - 1);
    }
  }

  lemma {:induction false} RegisterInjective(a: u32, b: u32, s: bytes)
    requires a != b
    ensures CrcFrom(a, s) != CrcFrom(b, s)
    decreases |s|
  {
    hide Xor32, CrcShift;
    if |s| != 0 {
      Xor32Injective(a, b, s[0]);
      ShiftInjective(Xor32(a, s[0]), Xor32(b, s[0]), 8);
      RegisterInjective(CrcShift(Xor32(a, s[0]), 8), CrcShift(Xor32(b, s[0]), 8), s[1..]);
    }
  }

  /** `t` is `s` with another byte at `i`. */
  predicate OneByteOff(s: bytes, t: bytes, i: nat) {
    |s| == |t| && i < |s| && s[i] != t[i] && forall j :: 0 <= j < |s| && j != i ==> s[j] == t[j]
  }

  lemma {:induction false} ByteInjective(reg: u32, s: bytes, t: bytes, i: nat)
    requires OneByteOff(s, t, i)
    ensures CrcFrom(reg, s) != CrcFrom(reg, t)
    decreases i
  {
    hide Xor32, CrcShift;
    if i == 0 {
      assert s[1..] == t[1..];
      Xor32Injective(s[0], t[0], reg);
      ShiftInjective(Xor32(reg, s[0]), Xor32(reg, t[0]), 8);
      RegisterInjective(CrcShift(Xor32(reg, s[0]), 8), CrcShift(Xor32(reg, t[0]), 8), s[1..]);
    } else {
      ByteInjective(CrcShift(Xor32(reg, s[0]), 8), s[1..], t[1..], i - 1);
    }
  }

  /** Changing one byte changes the checksum. */
  lemma OneByteChangesCrc(s: bytes, t: bytes, i: nat)
    requires OneByteOff(s, t, i)
    ensures Crc32(s) != Crc32(t)
  {
    hide Xor32, CrcFrom;
    ByteInjective(0xFFFF_FFFF, s, t, i);
    Xor32Injective(CrcFrom(0xFFFF_FFFF, s), CrcFrom(0xFFFF_FFFF, t), 0xFFFF_FFFF);
  }
}
