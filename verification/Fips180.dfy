/**
 SHA-256 as FIPS 180-4 defines it: words are integers below 2^32, addition is
 modulo 2^32 (section 3.2), the functions are those of section 4.1.2, padding
 and parsing those of sections 5.1.1 and 5.2.1, and the computation that of 6.2.2.
 */
module Fips180 {
  import opened Bits

  type Word = x: int | 0 <= x < 0x1_0000_0000

  type Byte = x: int | 0 <= x < 256

  // Addition of words is modulo 2^32.
  function Mod32(x: int): Word {
    x % 0x1_0000_0000
  }

  function AndW(x: Word, y: Word): Word {
    Pow32(); Bounds(32, x, y); And(x, y)
  }

  function OrW(x: Word, y: Word): Word {
    Pow32(); Bounds(32, x, y); Or(x, y)
  }

  function XorW(x: Word, y: Word): Word {
    Pow32(); Bounds(32, x, y); Xor(x, y)
  }

  function NotW(x: Word): Word {
    0xffff_ffff - x
  }

  lemma QuotientBound(x: nat, p: nat)
    requires p > 0
    ensures 0 <= x / p <= x
  {
    var q := x / p;
    Product(p - 1, q);
    assert x == q + (p - 1) * q + x % p;
  }

  lemma Product(a: nat, b: nat)
    ensures 0 <= a * b
  {
  }

  function ShR(n: nat, x: Word): Word {
    QuotientBound(x, Pow2(n)); x / Pow2(n)
  }

  function ShL(n: nat, x: Word): Word {
    Mod32(x * Pow2(n))
  }

  function RotR(n: nat, x: Word): Word
    requires n < 32
  {
    OrW(ShR(n, x), ShL(32 - n, x))
  }

  function Ch(x: Word, y: Word, z: Word): Word {
    XorW(AndW(x, y), AndW(NotW(x), z))
  }

  function Maj(x: Word, y: Word, z: Word): Word {
    XorW(XorW(AndW(x, y), AndW(x, z)), AndW(y, z))
  }

  function BigSigma0(x: Word): Word {
    XorW(XorW(RotR(2, x), RotR(13, x)), RotR(22, x))
  }

  function BigSigma1(x: Word): Word {
    XorW(XorW(RotR(6, x), RotR(11, x)), RotR(25, x))
  }

  function Sigma0(x: Word): Word {
    XorW(XorW(RotR(7, x), RotR(18, x)), ShR(3, x))
  }

  function Sigma1(x: Word): Word {
    XorW(XorW(RotR(17, x), RotR(19, x)), ShR(10, x))
  }

  const K: seq<Word> := [
    0x428a2f98, 0x71374491, 0xb5c0fbcf, 0xe9b5dba5, 0x3956c25b, 0x59f111f1, 0x923f82a4, 0xab1c5ed5,
    0xd807aa98, 0x12835b01, 0x243185be, 0x550c7dc3, 0x72be5d74, 0x80deb1fe, 0x9bdc06a7, 0xc19bf174,
    0xe49b69c1, 0xefbe4786, 0x0fc19dc6, 0x240ca1cc, 0x2de92c6f, 0x4a7484aa, 0x5cb0a9dc, 0x76f988da,
    0x983e5152, 0xa831c66d, 0xb00327c8, 0xbf597fc7, 0xc6e00bf3, 0xd5a79147, 0x06ca6351, 0x14292967,
    0x27b70a85, 0x2e1b2138, 0x4d2c6dfc, 0x53380d13, 0x650a7354, 0x766a0abb, 0x81c2c92e, 0x92722c85,
    0xa2bfe8a1, 0xa81a664b, 0xc24b8b70, 0xc76c51a3, 0xd192e819, 0xd6990624, 0xf40e3585, 0x106aa070,
    0x19a4c116, 0x1e376c08, 0x2748774c, 0x34b0bcb5, 0x391c0cb3, 0x4ed8aa4a, 0x5b9cca4f, 0x682e6ff3,
    0x748f82ee, 0x78a5636f, 0x84c87814, 0x8cc70208, 0x90befffa, 0xa4506ceb, 0xbef9a3f7, 0xc67178f2]

  const INITIAL: seq<Word> := [
    0x6a09e667, 0xbb67ae85, 0x3c6ef372, 0xa54ff53a, 0x510e527f, 0x9b05688c, 0x1f83d9ab, 0x5be0cd19]

  function WordAt(b: seq<Byte>, i: nat): Word
    requires 4 * i + 4 <= |b|
  {
    b[4 * i] as int * 0x100_0000 + b[4 * i + 1] as int * 0x1_0000 + b[4 * i + 2] as int * 0x100 + b[4 * i + 3]
  }

  // The message schedule of one block.
  function Schedule(b: seq<Byte>, t: nat): Word
    requires |b| == 64
  {
    if t < 16 then WordAt(b, t)
    else Mod32(Sigma1(Schedule(b, t - 2)) + Schedule(b, t - 7) + Sigma0(Schedule(b, t - 15)) + Schedule(b, t - 16))
  }

  datatype Regs = Regs(a: Word, b: Word, c: Word, d: Word, e: Word, f: Word, g: Word, h: Word)

  function T1(r: Regs, k: Word, w: Word): Word {
    Mod32(r.h + BigSigma1(r.e) + Ch(r.e, r.f, r.g) + k + w)
  }

  function T2(r: Regs): Word {
    Mod32(BigSigma0(r.a) + Maj(r.a, r.b, r.c))
  }

  function Round(r: Regs, k: Word, w: Word): Regs {
    Regs(Mod32(T1(r, k, w) + T2(r)), r.a, r.b, r.c, Mod32(r.d + T1(r, k, w)), r.e, r.f, r.g)
  }

  function Rounds(r: Regs, b: seq<Byte>, t: nat): Regs
    requires |b| == 64 && t <= 64
  {
    if t == 0 then r else Round(Rounds(r, b, t - 1), K[t - 1], Schedule(b, t - 1))
  }

  function Compress(h: seq<Word>, b: seq<Byte>): (r: seq<Word>)
    requires |h| == 8 && |b| == 64
    ensures |r| == 8
  {
    var v := Rounds(Regs(h[0], h[1], h[2], h[3], h[4], h[5], h[6], h[7]), b, 64);
    [Mod32(h[0] + v.a), Mod32(h[1] + v.b), Mod32(h[2] + v.c), Mod32(h[3] + v.d),
     Mod32(h[4] + v.e), Mod32(h[5] + v.f), Mod32(h[6] + v.g), Mod32(h[7] + v.h)]
  }

  // H(N) for a padded message of N blocks.
  function HashBlocks(m: seq<Byte>): (r: seq<Word>)
    requires |m| % 64 == 0
    ensures |r| == 8
  {
    if |m| == 0 then INITIAL else Compress(HashBlocks(m[..|m| - 64]), m[|m| - 64..])
  }

  // The number of zero bits appended to a message of `bits` bits.
  function ZeroBits(bits: nat): nat {
    (448 - (bits + 1)) % 512
  }

  // Section 5.1.1: the smallest non-negative solution of l + 1 + k = 448 mod 512.
  lemma ZeroBitsIsSmallest(bits: nat, k: nat)
    ensures (bits + 1 + ZeroBits(bits)) % 512 == 448
    ensures (bits + 1 + k) % 512 == 448 ==> ZeroBits(bits) <= k
  {
  }

  function BigEndian(x: nat, bytes: nat): (r: seq<Byte>)
    ensures |r| == bytes
  {
    if bytes == 0 then [] else BigEndian(x / 256, bytes - 1) + [x % 256]
  }

  function Zeros(n: nat): (r: seq<Byte>)
    ensures |r| == n
  {
    seq(n, _ => 0)
  }

  lemma ZeroBitsAre(length: nat)
    ensures ZeroBits(8 * length) == 8 * ((55 - length) % 64) + 7
  {
    var q, z := (55 - length) / 64, (55 - length) % 64;
    assert 55 - length == 64 * q + z;
    ModUnique(448 - (8 * length + 1), 512, q, 8 * z + 7);
  }

  // The whole zero bytes after the byte that holds the appended 1 bit.
  function ZeroBytes(length: nat): (z: nat)
    ensures ZeroBits(8 * length) == 8 * z + 7
    ensures (length + 1 + z + 8) % 64 == 0
  {
    ZeroBitsAre(length); (ZeroBits(8 * length) - 7) / 8
  }

  // 0x80 holds the appended 1 bit and the first seven of the zero bits.
  function Padding(length: nat): (p: seq<Byte>)
    ensures (length + |p|) % 64 == 0
  {
    [0x80] + Zeros(ZeroBytes(length)) + BigEndian(8 * length, 8)
  }

  function Pad(m: seq<Byte>): (r: seq<Byte>)
    ensures |r| % 64 == 0
  {
    m + Padding(|m|)
  }

  function WordBytes(ws: seq<Word>): (r: seq<Byte>)
    ensures |r| == 4 * |ws|
  {
    if ws == [] then [] else WordBytes(ws[..|ws| - 1]) + BigEndian(ws[|ws| - 1], 4)
  }

  function Sha256(m: seq<Byte>): (r: seq<Byte>)
    ensures |r| == 32
  {
    WordBytes(HashBlocks(Pad(m)))
  }
}
