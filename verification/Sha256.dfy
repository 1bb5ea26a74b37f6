/**
 The streaming SHA-256 of the app, in its own form: fields updated in place and
 JavaScript numbers, which are signed after a bitwise operation and exact as
 long as they stay below 2^53. It computes the FIPS 180-4 hash of everything
 passed to `update`, however that was split.
 */
module Sha256 {
  import opened Bits
  import opened Fips180
  import opened Wrappers

  // ---------- JavaScript 32-bit operators ----------

  function S32(x: Word): int {
    if x < 0x8000_0000 then x else x - 0x1_0000_0000
  }

  function JsAnd(x: int, y: int): int {
    S32(AndW(Mod32(x), Mod32(y)))
  }

  function JsOr(x: int, y: int): int {
    S32(OrW(Mod32(x), Mod32(y)))
  }

  function JsXor(x: int, y: int): int {
    S32(XorW(Mod32(x), Mod32(y)))
  }

  function JsNot(x: int): int {
    S32(NotW(Mod32(x)))
  }

  function JsShr(x: int, n: nat): int { // x >>> n
    ShR(n, Mod32(x))
  }

  function JsShl(x: int, n: nat): int { // x << n
    S32(ShL(n, Mod32(x)))
  }

  function JsRotr(x: int, n: nat): int
    requires n < 32
  {
    JsOr(JsShr(x, n), JsShl(x, 32 - n))
  }

  lemma SignedIsCongruent(x: Word)
    ensures Mod32(S32(x)) == x && Mod32(x) == x
  {
  }

  // The word behind each operator's signed result.
  lemma OpsAreWordOps(x: int, y: int, n: nat)
    ensures Mod32(JsAnd(x, y)) == AndW(Mod32(x), Mod32(y))
    ensures Mod32(JsOr(x, y)) == OrW(Mod32(x), Mod32(y))
    ensures Mod32(JsXor(x, y)) == XorW(Mod32(x), Mod32(y))
    ensures Mod32(JsNot(x)) == NotW(Mod32(x))
    ensures Mod32(JsShr(x, n)) == ShR(n, Mod32(x))
    ensures Mod32(JsShl(x, n)) == ShL(n, Mod32(x))
  {
    hide AndW, OrW, XorW, NotW, ShR, ShL, Mod32, S32;
    SignedIsCongruent(AndW(Mod32(x), Mod32(y)));
    SignedIsCongruent(OrW(Mod32(x), Mod32(y)));
    SignedIsCongruent(XorW(Mod32(x), Mod32(y)));
    SignedIsCongruent(NotW(Mod32(x)));
    SignedIsCongruent(ShR(n, Mod32(x)));
    SignedIsCongruent(ShL(n, Mod32(x)));
  }

  lemma RotrIsRotR(x: int, n: nat)
    requires n < 32
    ensures Mod32(JsRotr(x, n)) == RotR(n, Mod32(x))
  {
    hide AndW, OrW, XorW, NotW, ShR, ShL, Mod32, S32, JsOr, JsShr, JsShl;
    OpsAreWordOps(x, x, n);
    OpsAreWordOps(x, x, 32 - n);
    OpsAreWordOps(JsShr(x, n), JsShl(x, 32 - n), 0);
  }

  lemma Xor3(x: int, y: int, z: int)
    ensures Mod32(JsXor(JsXor(x, y), z)) == XorW(XorW(Mod32(x), Mod32(y)), Mod32(z))
  {
    hide XorW, Mod32, JsXor;
    OpsAreWordOps(x, y, 0);
    OpsAreWordOps(JsXor(x, y), z, 0);
  }

  lemma ChIsCh(e: Word, f: Word, g: Word)
    ensures Mod32(JsXor(JsAnd(e, f), JsAnd(JsNot(e), g))) == Ch(e, f, g)
  {
    hide AndW, XorW, NotW, Mod32, JsAnd, JsXor, JsNot;
    SignedIsCongruent(e);
    SignedIsCongruent(f);
    SignedIsCongruent(g);
    OpsAreWordOps(e, f, 0);
    OpsAreWordOps(JsNot(e), g, 0);
    OpsAreWordOps(JsAnd(e, f), JsAnd(JsNot(e), g), 0);
  }

  lemma MajIsMaj(a: Word, b: Word, c: Word)
    ensures Mod32(JsXor(JsXor(JsAnd(a, b), JsAnd(a, c)), JsAnd(b, c))) == Maj(a, b, c)
  {
    hide AndW, XorW, Mod32, JsAnd, JsXor;
    SignedIsCongruent(a);
    SignedIsCongruent(b);
    SignedIsCongruent(c);
    OpsAreWordOps(a, b, 0);
    OpsAreWordOps(a, c, 0);
    OpsAreWordOps(b, c, 0);
    Xor3(JsAnd(a, b), JsAnd(a, c), JsAnd(b, c));
  }

  lemma Absorb(x: int, y: int)
    ensures Mod32(Mod32(x) + y) == Mod32(x + y)
  {
  }

  // A sum of numbers of mixed sign agrees with the sum of their words modulo 2^32.
  lemma Sum5(v: int, w: int, x: int, y: int, z: int)
    ensures Mod32(v + w + x + y + z) == Mod32(Mod32(v) + Mod32(w) + Mod32(x) + Mod32(y) + Mod32(z))
  {
    var v', w', x', y' := Mod32(v), Mod32(w), Mod32(x), Mod32(y);
    Absorb(v, w + x + y + z);
    Absorb(w, v' + x + y + z);
    Absorb(x, v' + w' + y + z);
    Absorb(y, v' + w' + x' + z);
    Absorb(z, v' + w' + x' + y');
    hide Mod32;
  }

  lemma Sum2(x: int, y: int)
    ensures Mod32(x + y) == Mod32(Mod32(x) + Mod32(y))
  {
    Absorb(x, y);
    Absorb(y, Mod32(x));
    hide Mod32;
  }

  lemma ScheduleStep(w16: Word, x: Word, w7: Word, y: Word, s0: int, s1: int)
    requires s0 == JsXor(JsXor(JsRotr(x, 7), JsRotr(x, 18)), JsShr(x, 3))
    requires s1 == JsXor(JsXor(JsRotr(y, 17), JsRotr(y, 19)), JsShr(y, 10))
    ensures Mod32(w16 + s0 + w7 + s1) == Mod32(Sigma1(y) + w7 + Sigma0(x) + w16)
  {
    hide AndW, OrW, XorW, ShR, ShL, RotR, JsRotr, JsXor, JsAnd, JsNot, JsShr, Sigma0, Sigma1, Mod32;
    SmallSigmas(x);
    SmallSigmas(y);
    SignedIsCongruent(0);
    SignedIsCongruent(w16);
    SignedIsCongruent(w7);
    Sum5(w16, s0, w7, s1, 0);
  }

  lemma FirstWord(b: seq<Byte>, t: nat)
    requires |b| == 64 && t < 16
    ensures Schedule(b, t) == WordAt(b, t)
  {
  }

  lemma LaterWord(b: seq<Byte>, t: nat)
    requires |b| == 64 && 16 <= t < 64
    ensures Schedule(b, t)
         == Mod32(Sigma1(Schedule(b, t - 2)) + Schedule(b, t - 7) + Sigma0(Schedule(b, t - 15)) + Schedule(b, t - 16))
  {
    hide Sigma0, Sigma1, Mod32;
  }

  lemma SmallSigmas(x: Word)
    ensures Mod32(JsXor(JsXor(JsRotr(x, 7), JsRotr(x, 18)), JsShr(x, 3))) == Sigma0(x)
    ensures Mod32(JsXor(JsXor(JsRotr(x, 17), JsRotr(x, 19)), JsShr(x, 10))) == Sigma1(x)
  {
    hide AndW, OrW, XorW, ShR, ShL, RotR, JsRotr, JsXor, JsAnd, JsNot, JsShr, Mod32;
    SignedIsCongruent(x);
    RotrIsRotR(x, 7);
    RotrIsRotR(x, 18);
    OpsAreWordOps(x, x, 3);
    Xor3(JsRotr(x, 7), JsRotr(x, 18), JsShr(x, 3));
    RotrIsRotR(x, 17);
    RotrIsRotR(x, 19);
    OpsAreWordOps(x, x, 10);
    Xor3(JsRotr(x, 17), JsRotr(x, 19), JsShr(x, 10));
  }

  lemma BigSigmas(x: Word)
    ensures Mod32(JsXor(JsXor(JsRotr(x, 2), JsRotr(x, 13)), JsRotr(x, 22))) == BigSigma0(x)
    ensures Mod32(JsXor(JsXor(JsRotr(x, 6), JsRotr(x, 11)), JsRotr(x, 25))) == BigSigma1(x)
  {
    hide AndW, OrW, XorW, ShR, ShL, RotR, JsRotr, JsXor, JsAnd, JsNot, JsShr, Mod32;
    SignedIsCongruent(x);
    RotrIsRotR(x, 2);
    RotrIsRotR(x, 13);
    RotrIsRotR(x, 22);
    Xor3(JsRotr(x, 2), JsRotr(x, 13), JsRotr(x, 22));
    RotrIsRotR(x, 6);
    RotrIsRotR(x, 11);
    RotrIsRotR(x, 25);
    Xor3(JsRotr(x, 6), JsRotr(x, 11), JsRotr(x, 25));
  }

  lemma TemporariesStep(r: Regs, k: Word, w: Word, s1: int, ch: int, s0: int, maj: int)
    requires s1 == JsXor(JsXor(JsRotr(r.e, 6), JsRotr(r.e, 11)), JsRotr(r.e, 25))
    requires ch == JsXor(JsAnd(r.e, r.f), JsAnd(JsNot(r.e), r.g))
    requires s0 == JsXor(JsXor(JsRotr(r.a, 2), JsRotr(r.a, 13)), JsRotr(r.a, 22))
    requires maj == JsXor(JsXor(JsAnd(r.a, r.b), JsAnd(r.a, r.c)), JsAnd(r.b, r.c))
    ensures Mod32(r.h + s1 + ch + k + w) == T1(r, k, w)
    ensures Mod32(s0 + maj) == T2(r)
  {
    hide AndW, OrW, XorW, ShR, ShL, RotR, JsRotr, JsXor, JsAnd, JsNot, JsShr, BigSigma0, BigSigma1, Ch, Maj, Mod32;
    SignedIsCongruent(r.h);
    SignedIsCongruent(k);
    SignedIsCongruent(w);
    BigSigmas(r.e);
    BigSigmas(r.a);
    ChIsCh(r.e, r.f, r.g);
    MajIsMaj(r.a, r.b, r.c);
    Sum5(r.h, s1, ch, k, w);
    Sum2(s0, maj);
  }

  // Extending a message by a whole block compresses that block.
  lemma AppendBlock(m: seq<Byte>, b: seq<Byte>)
    requires |m| % 64 == 0 && |b| == 64
    ensures HashBlocks(m + b) == Compress(HashBlocks(m), b)
  {
    assert (m + b)[..|m + b| - 64] == m && (m + b)[|m + b| - 64..] == b;
  }

  lemma RoundsZero(r: Regs, b: seq<Byte>)
    requires |b| == 64
    ensures Rounds(r, b, 0) == r
  {
  }

  lemma RoundStep(r: Regs, b: seq<Byte>, i: nat)
    requires |b| == 64 && i < 64
    ensures Rounds(r, b, i + 1) == Round(Rounds(r, b, i), K[i], Schedule(b, i))
  {
    hide T1, T2, Schedule;
  }

  lemma CompressAt(h: seq<Word>, b: seq<Byte>, v: Regs, next: seq<Word>, r: seq<Word>)
    requires |h| == 8 && |b| == 64 && |r| == 8
    requires v == Rounds(Regs(h[0], h[1], h[2], h[3], h[4], h[5], h[6], h[7]), b, 64)
    requires next == [v.a, v.b, v.c, v.d, v.e, v.f, v.g, v.h]
    requires forall j | 0 <= j < 8 :: r[j] == Mod32(h[j] as int + next[j] as int)
    ensures r == Compress(h, b)
  {
    hide Rounds, Mod32;
  }

  // What the fields mean: `h` is the hash of the whole blocks of message m, the
  // first n bytes of the block buffer are the rest.
  ghost predicate Buffered(h: seq<Word>, block: seq<Byte>, n: nat, m: seq<Byte>) {
    && |block| == 64
    && n == |m| % 64
    && h == HashBlocks(m[..|m| - n])
    && block[..n] == m[|m| - n..]
  }

  // Filling the buffer with a chunk that fits, and compressing it once full.
  lemma BufferMore(h: seq<Word>, block: seq<Byte>, n: nat, m: seq<Byte>, chunk: seq<Byte>, filled: seq<Byte>)
    requires Buffered(h, block, n, m) && n + |chunk| <= 64
    requires |filled| == 64 && filled[..n + |chunk|] == block[..n] + chunk
    ensures |h| == 8
    ensures n + |chunk| < 64 ==> Buffered(h, filled, n + |chunk|, m + chunk)
    ensures n + |chunk| == 64 ==> Buffered(Compress(h, filled), filled, 0, m + chunk)
  {
    hide HashBlocks, Compress;
    var whole, rest := m[..|m| - n], block[..n] + chunk;
    assert m == whole + m[|m| - n..];
    assert m + chunk == whole + rest;
    if |rest| == 64 {
      assert filled == rest;
      AppendBlock(whole, rest);
      assert (m + chunk)[..|m + chunk|] == m + chunk;
    } else {
      assert |m + chunk| % 64 == |rest|;
      assert (m + chunk)[..|whole|] == whole && (m + chunk)[|whole|..] == rest;
    }
  }

  lemma BufferRoom(h: seq<Word>, block: seq<Byte>, n: nat, m: seq<Byte>)
    requires Buffered(h, block, n, m)
    ensures n < 64
  {
  }

  lemma FourBytes(w: Word)
    ensures BigEndian(w, 4) == [w / 0x100_0000, w / 0x1_0000 % 256, w / 0x100 % 256, w % 256]
  {
    assert BigEndian(w / 0x100_0000, 1) == [w / 0x100_0000];
    assert BigEndian(w / 0x1_0000, 2) == [w / 0x100_0000, w / 0x1_0000 % 256];
    assert BigEndian(w / 0x100, 3) == [w / 0x100_0000, w / 0x1_0000 % 256, w / 0x100 % 256];
  }

  lemma {:induction false} BigEndianJoin(high: nat, low: nat, j: nat, k: nat)
    requires low < Pow2(8 * k)
    ensures BigEndian(high * Pow2(8 * k) + low, j + k) == BigEndian(high, j) + BigEndian(low, k)
  {
    if k > 0 {
      ByteMore(k - 1);
      BigEndianJoin(high, low / 256, j, k - 1);
      BigEndianJoinMore(high, low, j, k - 1);
    }
  }

  lemma BigEndianJoinMore(high: nat, low: nat, j: nat, k: nat)
    requires BigEndian(high * Pow2(8 * k) + low / 256, j + k) == BigEndian(high, j) + BigEndian(low / 256, k)
    ensures BigEndian(high * Pow2(8 * (k + 1)) + low, j + k + 1) == BigEndian(high, j) + BigEndian(low, k + 1)
  {
    hide BigEndian, Pow2;
    var p, q := Pow2(8 * k), Pow2(8 * (k + 1));
    ByteMore(k);
    JoinArithmetic(high, p, q, low);
    LastByte(high * q + low, j + k);
    LastByte(low, k);
  }

  lemma JoinArithmetic(high: nat, p: nat, q: nat, low: nat)
    requires q == 256 * p
    ensures (high * q + low) / 256 == high * p + low / 256 && (high * q + low) % 256 == low % 256
  {
    assert high * q == 256 * (high * p);
    ModUnique(high * q + low, 256, high * p + low / 256, low % 256);
  }

  lemma ByteMore(k: nat)
    ensures Pow2(8 * (k + 1)) == 256 * Pow2(8 * k)
  {
    var n := 8 * k;
    Double(n);
    Double(n + 1);
    Double(n + 2);
    Double(n + 3);
    Double(n + 4);
    Double(n + 5);
    Double(n + 6);
    Double(n + 7);
    hide Pow2;
  }

  lemma Double(n: nat)
    ensures Pow2(n + 1) == 2 * Pow2(n)
  {
  }

  lemma LastByte(x: nat, k: nat)
    ensures BigEndian(x, k + 1) == BigEndian(x / 256, k) + [x % 256]
  {
  }

  // The 64-bit length as the two words the program writes.
  lemma LengthBytes(x: nat)
    ensures BigEndian(x, 8) == BigEndian(x / 0x1_0000_0000, 4) + BigEndian(Mod32(x), 4)
  {
    hide BigEndian, Pow2;
    Pow32();
    BigEndianJoin(x / 0x1_0000_0000, Mod32(x), 4, 4);
  }

  function Length(m: seq<Byte>): (r: seq<Byte>)
    ensures |r| == 8
  {
    BigEndian(8 * |m|, 8)
  }

  lemma PadIs(m: seq<Byte>, whole: seq<Byte>, rest: seq<Byte>)
    requires m == whole + rest && |whole| % 64 == 0 && |rest| < 64
    ensures Pad(m) == (whole + rest) + ([0x80] + Zeros(if |rest| < 56 then 55 - |rest| else 119 - |rest|) + Length(m))
  {
    hide BigEndian, Zeros, ZeroBits;
    RestLength(whole, rest);
    ZeroBitsAre(|m|);
  }

  // The padded message is the whole blocks and then one block, or two.
  lemma OneLastBlock(m: seq<Byte>, whole: seq<Byte>, rest: seq<Byte>)
    requires m == whole + rest && |whole| % 64 == 0 && |rest| < 56
    ensures HashBlocks(Pad(m)) == Compress(HashBlocks(whole), rest + [0x80] + Zeros(55 - |rest|) + Length(m))
  {
    hide HashBlocks, Compress, Length, Zeros, Pad;
    PadIs(m, whole, rest);
    RegroupOne(whole, rest, [0x80], Zeros(55 - |rest|), Length(m));
    AppendBlock(whole, rest + [0x80] + Zeros(55 - |rest|) + Length(m));
  }

  lemma TwoLastBlocks(m: seq<Byte>, whole: seq<Byte>, rest: seq<Byte>)
    requires m == whole + rest && |whole| % 64 == 0 && 56 <= |rest| < 64
    ensures HashBlocks(Pad(m))
         == Compress(Compress(HashBlocks(whole), rest + [0x80] + Zeros(63 - |rest|)), Zeros(56) + Length(m))
  {
    hide HashBlocks, Compress, Length, Zeros, Pad;
    PadIs(m, whole, rest);
    ZerosJoin(63 - |rest|, 56);
    var first, second := rest + [0x80] + Zeros(63 - |rest|), Zeros(56) + Length(m);
    RegroupTwo(whole, rest, [0x80], Zeros(63 - |rest|), Zeros(56), Length(m));
    AppendBlock(whole, first);
    AppendBlock(whole + first, second);
  }

  lemma RegroupOne(whole: seq<Byte>, rest: seq<Byte>, bit: seq<Byte>, zeros: seq<Byte>, length: seq<Byte>)
    ensures (whole + rest) + (bit + zeros + length) == whole + (rest + bit + zeros + length)
  {
  }

  lemma RegroupTwo(whole: seq<Byte>, rest: seq<Byte>, bit: seq<Byte>, zeros: seq<Byte>, more: seq<Byte>, length: seq<Byte>)
    ensures (whole + rest) + (bit + (zeros + more) + length) == whole + (rest + bit + zeros) + (more + length)
  {
  }

  lemma ZerosJoin(a: nat, b: nat)
    ensures Zeros(a + b) == Zeros(a) + Zeros(b)
  {
  }

  lemma RestLength(whole: seq<Byte>, rest: seq<Byte>)
    requires |whole| % 64 == 0 && |rest| < 64
    ensures (55 - |whole + rest|) % 64 == if |rest| < 56 then 55 - |rest| else 119 - |rest|
  {
    var z := if |rest| < 56 then 55 - |rest| else 119 - |rest|;
    ModUnique(55 - |whole + rest|, 64, -(|whole| / 64) - (if |rest| < 56 then 0 else 1), z);
  }

  lemma NoWords()
    ensures WordBytes([]) == []
  {
  }

  lemma Sha256Is(m: seq<Byte>, h: seq<Word>)
    requires h == HashBlocks(Pad(m))
    ensures WordBytes(h) == Fips180.Sha256(m)
  {
  }

  lemma WordBytesNext(ws: seq<Word>, i: nat)
    requires i < |ws|
    ensures WordBytes(ws[..i + 1]) == WordBytes(ws[..i]) + BigEndian(ws[i], 4)
  {
    assert ws[..i + 1][..i] == ws[..i];
  }

  class Hasher {
    const state: array<Word>
    const block: array<Byte>
    var blockLength: nat
    var bytesHashed: nat
    var finished: bool
    ghost var message: seq<Byte> // everything passed to Update so far

    ghost predicate Shape() {
      state.Length == 8 && block.Length == 64 && state as object != block
    }

    // The state is the hash of the whole blocks, the block buffer the rest.
    ghost predicate Valid()
      reads this, state, block
    {
      && Shape()
      && bytesHashed == |message|
      && (!finished ==> Buffered(state[..], block[..], blockLength, message))
    }

    constructor ()
      ensures Valid() && fresh(state) && fresh(block) && message == [] && !finished
    {
      state := new Word[8](i requires 0 <= i < 8 => INITIAL[i]);
      block := new Byte[64](_ => 0);
      blockLength, bytesHashed, finished, message := 0, 0, false, [];
      new;
      assert state[..] == INITIAL;
    }

    // The first two loops of `compress`: parse the block and extend it to 64 words.
    method ExpandBlock(words: array<Word>)
      requires block.Length == 64 && words.Length == 64 && words != state && words as object != block
      modifies words
      ensures forall j | 0 <= j < 64 :: words[j] == Schedule(block[..], j)
    {
      hide AndW, OrW, XorW, ShR, ShL, RotR, JsRotr, JsXor, JsShr, Mod32, Sigma0, Sigma1, Schedule;
      ghost var b := block[..];
      for i := 0 to 16
        invariant forall j | 0 <= j < i :: words[j] == Schedule(b, j)
      {
        words[i] := GetUint32(i * 4);
        FirstWord(b, i);
      }
      for i := 16 to 64
        invariant forall j | 0 <= j < i :: words[j] == Schedule(b, j)
      {
        var x, y := words[i - 15], words[i - 2];
        var s0 := JsXor(JsXor(JsRotr(x, 7), JsRotr(x, 18)), JsShr(x, 3));
        var s1 := JsXor(JsXor(JsRotr(y, 17), JsRotr(y, 19)), JsShr(y, 10));
        ScheduleStep(words[i - 16], x, words[i - 7], y, s0, s1);
        LaterWord(b, i);
        words[i] := Mod32(words[i - 16] + s0 + words[i - 7] + s1);
      }
    }

    // The 64 rounds over the block buffer.
    method CompressBlock()
      requires Shape()
      modifies state
      ensures state[..] == Compress(old(state[..]), block[..])
    {
      hide AndW, OrW, XorW, ShR, ShL, RotR, JsRotr, JsXor, JsAnd, JsNot, JsShr, T1, T2, Schedule, Rounds, Compress, Mod32;
      var words := new Word[64](_ => 0);
      ExpandBlock(words);
      ghost var b, h0 := block[..], state[..];
      ghost var start := Regs(h0[0], h0[1], h0[2], h0[3], h0[4], h0[5], h0[6], h0[7]);
      var a: Word, bb: Word, c: Word, d: Word := state[0], state[1], state[2], state[3];
      var e: Word, f: Word, g: Word, h: Word := state[4], state[5], state[6], state[7];
      RoundsZero(start, b);
      for i := 0 to 64
        invariant Regs(a, bb, c, d, e, f, g, h) == Rounds(start, b, i)
        invariant state[..] == h0 && block[..] == b
        invariant forall j | 0 <= j < 64 :: words[j] == Schedule(b, j)
      {
        var s1 := JsXor(JsXor(JsRotr(e, 6), JsRotr(e, 11)), JsRotr(e, 25));
        var ch := JsXor(JsAnd(e, f), JsAnd(JsNot(e), g));
        var t1: int := Mod32(h + s1 + ch + K[i] + words[i]);
        var s0 := JsXor(JsXor(JsRotr(a, 2), JsRotr(a, 13)), JsRotr(a, 22));
        var maj := JsXor(JsXor(JsAnd(a, bb), JsAnd(a, c)), JsAnd(bb, c));
        var t2: int := Mod32(s0 + maj);
        ghost var r := Regs(a, bb, c, d, e, f, g, h);
        TemporariesStep(r, K[i], words[i], s1, ch, s0, maj);
        RoundStep(start, b, i);
        h := g;
        g := f;
        f := e;
        e := Mod32(d + t1);
        d := c;
        c := bb;
        bb := a;
        a := Mod32(t1 + t2);
      }
      var next: seq<Word> := [a, bb, c, d, e, f, g, h];
      AddToState(next);
      CompressAt(h0, b, Regs(a, bb, c, d, e, f, g, h), next, state[..]);
    }

    method AddToState(next: seq<Word>)
      requires state.Length == 8 && |next| == 8
      modifies state
      ensures forall j | 0 <= j < 8 :: state[j] == Mod32(old(state[j]) as int + next[j] as int)
    {
      for i := 0 to 8
        invariant forall j | 0 <= j < i :: state[j] == Mod32(old(state[j]) as int + next[j] as int)
        invariant forall j | i <= j < 8 :: state[j] == old(state[j])
      {
        state[i] := Mod32(state[i] as int + next[i] as int);
      }
    }

    // DataView.getUint32, big-endian
    method GetUint32(at: nat) returns (w: Word)
      requires block.Length == 64 && at % 4 == 0 && at + 4 <= 64
      ensures w == WordAt(block[..], at / 4)
    {
      w := block[at] as int * 0x100_0000 + block[at + 1] as int * 0x1_0000 + block[at + 2] as int * 0x100 + block[at + 3];
    }

    // One turn of the loop: buffer a chunk that fits and compress a full block.
    method AbsorbChunk(chunk: seq<Byte>)
      requires Shape() && blockLength + |chunk| <= 64
      requires Buffered(state[..], block[..], blockLength, message)
      modifies state, block, this`blockLength, this`message
      ensures Buffered(state[..], block[..], blockLength, message) && message == old(message) + chunk
    {
      hide Compress, HashBlocks, Buffered;
      ghost var rest := block[..blockLength] + chunk;
      forall k | 0 <= k < |chunk| {
        block[blockLength + k] := chunk[k];
      }
      assert block[..blockLength + |chunk|] == rest;
      assert state[..] == old(state[..]);
      BufferMore(state[..], old(block[..]), blockLength, message, chunk, block[..]);
      message := message + chunk;
      blockLength := blockLength + |chunk|;
      if blockLength == 64 {
        CompressBlock();
        blockLength := 0;
      }
    }

    // Throws, and changes nothing, once the digest is finalized.
    method Update(input: seq<Byte>) returns (ok: bool)
      requires Valid()
      modifies this, state, block
      ensures Valid() && finished == old(finished) && ok == !finished
      ensures message == if ok then old(message) + input else old(message)
    {
      hide HashBlocks, Compress, Buffered;
      if finished {
        return false;
      }
      var offset := 0;
      bytesHashed := bytesHashed + |input|;
      while offset < |input|
        invariant 0 <= offset <= |input| && !finished
        invariant Buffered(state[..], block[..], blockLength, message)
        invariant bytesHashed == old(bytesHashed) + |input|
        invariant message == old(message) + input[..offset]
      {
        BufferRoom(state[..], block[..], blockLength, message);
        assert blockLength < 64;
        var take := if 64 - blockLength < |input| - offset then 64 - blockLength else |input| - offset;
        assert input[..offset + take] == input[..offset] + input[offset..offset + take];
        AbsorbChunk(input[offset..offset + take]);
        offset := offset + take;
      }
      assert input[..offset] == input;
      assert |message| == |old(message)| + |input|;
      return true;
    }

    method FillZero(from: nat, to: nat)
      requires block.Length == 64 && from <= to <= 64
      modifies block
      ensures block[..] == old(block[..from]) + Zeros(to - from) + old(block[to..])
    {
      for i := from to to
        invariant forall k | 0 <= k < 64 :: block[k] == if from <= k < i then 0 else old(block[k])
      {
        block[i] := 0;
      }
    }

    // Bit counts stay exact JavaScript numbers: below 2^53.
    method Digest() returns (out: Option<seq<Byte>>)
      requires Valid() && |message| < 0x4_0000_0000_0000
      modifies this, state, block
      ensures Valid() && finished && message == old(message)
      ensures out == if old(finished) then None else Some(Fips180.Sha256(message))
    {
      hide HashBlocks, Pad, WordBytes, Buffered, Fips180.Sha256;
      if finished {
        return None;
      }
      finished := true;
      HashPadding();
      var output := Output();
      Sha256Is(message, state[..]);
      out := Some(output);
    }

    // The part of `digest` that pads, one or two blocks.
    method HashPadding()
      requires Shape() && bytesHashed == |message| < 0x4_0000_0000_0000
      requires Buffered(state[..], block[..], blockLength, message)
      modifies state, block, this`blockLength
      ensures state[..] == HashBlocks(Pad(message))
    {
      hide HashBlocks, Compress, BigEndian, Pad;
      ghost var whole, rest := message[..|message| - blockLength], message[|message| - blockLength..];
      assert message == whole + rest;
      block[blockLength] := 0x80;
      blockLength := blockLength + 1;
      assert block[..blockLength] == rest + [0x80] && state[..] == HashBlocks(whole);
      hide Buffered;
      if blockLength > 56 {
        TwoLastBlocks(message, whole, rest);
        FillZero(blockLength, 64);
        assert block[..] == rest + [0x80] + Zeros(63 - |rest|);
        assert state[..] == HashBlocks(whole);
        CompressBlock();
        blockLength := 0;
        assert [] + Zeros(56) == Zeros(56);
        HashLength([]);
      } else {
        OneLastBlock(message, whole, rest);
        HashLength(rest + [0x80]);
      }
    }

    method HashLength(ghost front: seq<Byte>)
      requires Shape() && bytesHashed == |message| < 0x4_0000_0000_0000
      requires |front| == blockLength <= 56 && block[..blockLength] == front
      modifies state, block
      ensures state[..] == Compress(old(state[..]), front + Zeros(56 - |front|) + Length(message))
    {
      hide HashBlocks, Compress, BigEndian, Mod32;
      var bitLength := bytesHashed * 8;
      FillZero(blockLength, 56);
      assert block[..56] == front + Zeros(56 - |front|);
      var high, low := bitLength / 0x1_0000_0000, Mod32(bitLength);
      PutUint32(block, 56, high);
      PutUint32(block, 60, low);
      LengthBytes(8 * |message|);
      assert block[..] == front + Zeros(56 - |front|) + Length(message);
      assert state[..] == old(state[..]);
      CompressBlock();
    }

    // The state as 32 bytes.
    method Output() returns (out: seq<Byte>)
      requires Shape()
      ensures out == WordBytes(state[..])
    {
      hide BigEndian, WordBytes;
      var output := new Byte[32](_ => 0);
      NoWords();
      for i := 0 to 8
        invariant output[..4 * i] == WordBytes(state[..i])
      {
        PutUint32(output, 4 * i, state[i]);
        WordBytesNext(state[..], i);
        assert output[..4 * (i + 1)] == output[..4 * i] + BigEndian(state[i], 4);
      }
      assert state[..8] == state[..] && output[..32] == output[..];
      return output[..];
    }

    method Hex() returns (out: Option<string>)
      requires Valid() && |message| < 0x4_0000_0000_0000
      modifies this, state, block
      ensures Valid() && finished && message == old(message)
      ensures out.None? <==> old(finished)
      ensures out.Some? ==> out.value == HexString(Fips180.Sha256(message)) && Spells(out.value, Fips180.Sha256(message))
    {
      var bytes := Digest();
      if bytes == None {
        return None;
      }
      HexSpells(bytes.value);
      return Some(HexString(bytes.value));
    }
  }

  method Sha256Hex(input: seq<Byte>) returns (out: string)
    requires |input| < 0x4_0000_0000_0000
    ensures out == HexString(Fips180.Sha256(input))
    ensures var d := Fips180.Sha256(input);
      |d| == 32 && |out| == 64
      && forall k | 0 <= k < 32 ::
           out[2 * k] == "0123456789abcdef"[d[k] / 16] && out[2 * k + 1] == "0123456789abcdef"[d[k] % 16]
  {
    var hasher := new Hasher();
    var _ := hasher.Update(input);
    assert hasher.message == input;
    var hex := hasher.Hex();
    return hex.value;
  }

  function HexDigit(d: nat): (c: char)
    requires d < 16
    ensures '0' <= c <= '9' || 'a' <= c <= 'f'
  {
    if d < 10 then '0' + d as char else 'a' + (d - 10) as char
  }

  // Two lower-case hexadecimal digits a byte.
  function HexString(bytes: seq<Byte>): (r: string)
    ensures |r| == 2 * |bytes|
    ensures forall c | c in r :: '0' <= c <= '9' || 'a' <= c <= 'f'
  {
    if bytes == [] then "" else [HexDigit(bytes[0] / 16), HexDigit(bytes[0] % 16)] + HexString(bytes[1..])
  }

  const HEX_DIGITS: string := "0123456789abcdef"

  // The text of a byte sequence: high digit first.
  predicate Spells(text: string, bytes: seq<Byte>) {
    |text| == 2 * |bytes|
    && forall k | 0 <= k < |bytes| :: text[2 * k] == HEX_DIGITS[bytes[k] / 16] && text[2 * k + 1] == HEX_DIGITS[bytes[k] % 16]
  }

  lemma {:induction false} HexSpells(bytes: seq<Byte>)
    ensures Spells(HexString(bytes), bytes)
  {
    if bytes != [] {
      HexSpells(bytes[1..]);
      var text, rest := HexString(bytes), HexString(bytes[1..]);
      forall k | 0 <= k < |bytes|
        ensures text[2 * k] == HEX_DIGITS[bytes[k] / 16] && text[2 * k + 1] == HEX_DIGITS[bytes[k] % 16]
      {
        if k > 0 {
          assert text[2 * k] == rest[2 * (k - 1)] && text[2 * k + 1] == rest[2 * (k - 1) + 1];
        } else {
          DigitIs(bytes[0] / 16);
          DigitIs(bytes[0] % 16);
        }
      }
    }
  }

  lemma DigitIs(d: nat)
    requires d < 16
    ensures HexDigit(d) == HEX_DIGITS[d]
  {
  }

  // A digest and its text determine each other.
  lemma {:induction false} HexIsInjective(a: seq<Byte>, b: seq<Byte>)
    requires HexString(a) == HexString(b)
    ensures a == b
  {
    assert |a| == |b|;
    if a != [] {
      var s, t := HexString(a), HexString(b);
      assert s[0] == t[0] && s[1] == t[1];
      assert s[2..] == HexString(a[1..]) && t[2..] == HexString(b[1..]);
      HexIsInjective(a[1..], b[1..]);
    }
  }

  // DataView.setUint32, big-endian
  method PutUint32(a: array<Byte>, at: nat, w: Word)
    requires at + 4 <= a.Length
    modifies a
    ensures a[..] == old(a[..at]) + BigEndian(w, 4) + old(a[at + 4..])
  {
    FourBytes(w);
    a[at], a[at + 1], a[at + 2], a[at + 3] := w / 0x100_0000, w / 0x1_0000 % 256, w / 0x100 % 256, w % 256;
  }
}
