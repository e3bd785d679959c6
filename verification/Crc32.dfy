/** CRC-32 of section 8 of RFC 1952, and its guarantee on error bursts. */
module Crc32 {
  import opened Bytes

  const POLY: bv32 := 0xEDB8_8320

  const INITIAL: bv32 := 0xFFFF_FFFF

  // ----- words, bits and bytes -----

  function Xor(x: bv32, y: bv32): bv32 {
    x ^ y
  }

  function Halve(u: bv32): bv32 {
    u >> 1
  }

  function Low(b: bool): bv32 {
    if b then 1 else 0
  }

  /** The word whose lowest bit is `b` and whose other bits are `w`. */
  function Cons(b: bool, w: bv32): bv32 {
    Low(b) | (w << 1)
  }

  function Word(s: seq<bool>): bv32 {
    if s == [] then 0 else Cons(s[0], Word(s[1..]))
  }

  function Pow2(n: nat): (r: nat)
    ensures r > 0
  {
    if n == 0 then 1 else 2 * Pow2(n - 1)
  }

  /** The `n` lowest binary digits of `x`, least significant first. */
  function BitsOf(x: nat, n: nat): (s: seq<bool>)
    ensures |s| == n
    decreases x, n
  {
    if n == 0 then [] else [x % 2 == 1] + BitsOf(x / 2, n - 1)
  }

  function ValueOf(s: seq<bool>): (x: nat)
    ensures x < Pow2(|s|)
  {
    if s == [] then 0 else (if s[0] then 1 else 0) + 2 * ValueOf(s[1..])
  }

  function Iterate<S>(f: S -> S, x: S, n: nat): S {
    if n == 0 then x else Iterate(f, f(x), n - 1)
  }

  /** The first `n` results of `low` as `half` moves on from `x`. */
  function Digits<S>(low: S -> bool, half: S -> S, x: S, n: nat): (s: seq<bool>)
    ensures |s| == n
  {
    if n == 0 then [] else [low(x)] + Digits(low, half, half(x), n - 1)
  }

  function LowBit(w: bv32): bool {
    w & 1 == 1
  }

  function WordBits(w: bv32, n: nat): (s: seq<bool>)
    ensures |s| == n
  {
    Digits(LowBit, Halve, w, n)
  }

  function ByteBits(b: byte): (s: seq<bool>)
    ensures |s| == 8
  {
    BitsOf(b, 8)
  }

  function ByteValue(s: seq<bool>): byte
    requires |s| == 8
  {
    assert Pow2(8) == 0x100;
    ValueOf(s)
  }

  /** The byte as a word. */
  function Widen(b: byte): bv32 {
    Word(ByteBits(b))
  }

  function LowByte(w: bv32): byte {
    ByteValue(WordBits(w, 8))
  }

  /** The word in big-endian bytes. */
  function PutWord(c: bv32): (r: bytes)
    ensures |r| == 4
  {
    [LowByte(c >> 24), LowByte(c >> 16), LowByte(c >> 8), LowByte(c)]
  }

  // ----- the checksum -----

  function Bit(r: bv32): bv32 {
    if r & 1 == 1 then (r >> 1) ^ POLY else r >> 1
  }

  /** The register takes in one whole byte, then makes eight bit steps. */
  function TakeByte(r: bv32, b: byte): bv32 {
    Iterate(Bit, Xor(r, Widen(b)), 8)
  }

  /** The register after it has taken in `data`, byte by byte. */
  function Feed(r: bv32, data: bytes): bv32
    decreases |data|
  {
    if data == [] then r else Feed(TakeByte(r, data[0]), data[1..])
  }

  function Checksum(data: bytes): bv32 {
    Xor(Feed(INITIAL, data), 0xFFFF_FFFF)
  }

  // ----- the register as a machine on single bits, least significant bit of each byte first -----

  function TakeBit(r: bv32, b: bool): bv32 {
    Bit(Xor(r, Low(b)))
  }

  function Bits(data: bytes): (s: seq<bool>)
    ensures |s| == 8 * |data|
  {
    if data == [] then [] else ByteBits(data[0]) + Bits(data[1..])
  }

  /** Left fold; `TakeBit` is the step it is used with. */
  function Run<S>(step: (S, bool) -> S, r: S, s: seq<bool>): S {
    if s == [] then r else Run(step, step(r, s[0]), s[1..])
  }

  ghost predicate Injective<S(!new)>(step: (S, bool) -> S) {
    forall x, y, b :: step(x, b) == step(y, b) ==> x == y
  }

  lemma {:induction false} RunConcat<S>(step: (S, bool) -> S, r: S, s: seq<bool>, t: seq<bool>)
    ensures Run(step, r, s + t) == Run(step, Run(step, r, s), t)
  {
    if s == [] {
      assert s + t == t;
    } else {
      assert (s + t)[1..] == s[1..] + t;
      RunConcat(step, step(r, s[0]), s[1..], t);
    }
  }

  lemma {:induction false} RunInjective<S(!new)>(step: (S, bool) -> S, x: S, y: S, s: seq<bool>)
    requires Injective(step)
    requires Run(step, x, s) == Run(step, y, s)
    ensures x == y
    decreases |s|
  {
    if s != [] {
      var b := s[0];
      RunInjective(step, step(x, b), step(y, b), s[1..]);
      assert step(x, b) == step(y, b);
    }
  }

  // ----- words of at most 32 bits -----

  /** `u` has no bit at position `n` or above. */
  predicate Fits(u: bv32, n: nat) {
    if n == 0 then u == 0 else Fits(Halve(u), n - 1)
  }

  lemma {:induction false} FitsMore(u: bv32, n: nat, m: nat)
    requires Fits(u, n) && n <= m
    ensures Fits(u, m)
    decreases m
  {
    if n > 0 {
      FitsMore(Halve(u), n - 1, m - 1);
    } else if m > 0 {
      FitsMore(0, 0, m - 1);
    }
  }

  lemma BitInjective(x: bv32, y: bv32)
    requires Bit(x) == Bit(y)
    ensures x == y
  {}

  lemma LowXorInjective(x: bv32, y: bv32, b: bool)
    requires Xor(x, Low(b)) == Xor(y, Low(b))
    ensures x == y
  {}

  lemma TakeBitInjectiveAt(x: bv32, y: bv32, b: bool)
    requires TakeBit(x, b) == TakeBit(y, b)
    ensures x == y
  {
    BitInjective(Xor(x, Low(b)), Xor(y, Low(b)));
    LowXorInjective(x, y, b);
  }

  lemma TakeBitInjective()
    ensures Injective(TakeBit)
  {
    forall x, y, b | TakeBit(x, b) == TakeBit(y, b) ensures x == y {
      TakeBitInjectiveAt(x, y, b);
    }
  }

  lemma {:induction false} IterateInjective<S(!new)>(f: S -> S, x: S, y: S, n: nat)
    requires forall a, b :: f(a) == f(b) ==> a == b
    requires Iterate(f, x, n) == Iterate(f, y, n)
    ensures x == y
  {
    if n > 0 {
      IterateInjective(f, f(x), f(y), n - 1);
    }
  }

  lemma Uncons(b: bool, w: bv32)
    requires w < 0x8000_0000
    ensures Halve(Cons(b, w)) == w && Cons(b, w) & 1 == Low(b)
  {}

  // A shift by one splits over the lowest bit and the rest.

  lemma OddHalf(r: bv32, w: bv32)
    requires w < 0x8000_0000
    ensures (r ^ (1 | (w << 1))) >> 1 == (r >> 1) ^ w && (r ^ 1) >> 1 == r >> 1
  {}

  lemma EvenHalf(r: bv32, w: bv32)
    requires w < 0x8000_0000
    ensures (r ^ (0 | (w << 1))) >> 1 == (r >> 1) ^ w && (r ^ 0) >> 1 == r >> 1
  {}

  lemma SameLow(r: bv32, w: bv32)
    ensures (r ^ (1 | (w << 1))) & 1 == (r ^ 1) & 1 && (r ^ (0 | (w << 1))) & 1 == (r ^ 0) & 1
  {}

  lemma SwapXor(x: bv32, y: bv32, w: bv32)
    ensures (x ^ y) ^ w == (x ^ w) ^ y
  {}

  lemma ConsHalf(r: bv32, b: bool, w: bv32)
    requires w < 0x8000_0000
    ensures Halve(Xor(r, Cons(b, w))) == Xor(Halve(Xor(r, Low(b))), w)
  {
    if b {
      OddHalf(r, w);
    } else {
      EvenHalf(r, w);
    }
  }

  lemma ConsLow(r: bv32, b: bool, w: bv32)
    ensures LowBit(Xor(r, Cons(b, w))) == LowBit(Xor(r, Low(b)))
  {
    SameLow(r, w);
  }

  lemma SwapPoly(x: bv32, w: bv32)
    ensures Xor(Xor(x, POLY), w) == Xor(Xor(x, w), POLY)
  {
    SwapXor(x, POLY, w);
  }

  /** `Bit` in terms of its operations, which may then be left abstract. */
  function ShiftStep<S>(low: S -> bool, half: S -> S, xor: (S, S) -> S, poly: S, x: S): S {
    if low(x) then xor(half(x), poly) else half(x)
  }

  lemma BitIsShiftStep(x: bv32)
    ensures Bit(x) == ShiftStep(LowBit, Halve, Xor, POLY, x)
  {}

  lemma StepsAgree<S>(low: S -> bool, half: S -> S, xor: (S, S) -> S, poly: S, p: S, q: S, w: S)
    requires half(q) == xor(half(p), w) && low(q) == low(p)
    requires xor(xor(half(p), poly), w) == xor(xor(half(p), w), poly)
    ensures xor(ShiftStep(low, half, xor, poly, p), w) == ShiftStep(low, half, xor, poly, q)
  {}

  /** Taking in one bit now and the rest later is taking them all in now. */
  lemma TakeOne(r: bv32, b: bool, w: bv32, u: bv32)
    requires w < 0x8000_0000 && u == Cons(b, w)
    ensures Xor(TakeBit(r, b), w) == Bit(Xor(r, u))
  {
    ConsHalf(r, b, w);
    ConsLow(r, b, w);
    SwapPoly(Halve(Xor(r, Low(b))), w);
    StepsAgree(LowBit, Halve, Xor, POLY, Xor(r, Low(b)), Xor(r, u), w);
    BitIsShiftStep(Xor(r, Low(b)));
    BitIsShiftStep(Xor(r, u));
  }

  lemma HalveEight(u: bv32)
    ensures Halve(Halve(Halve(Halve(Halve(Halve(Halve(Halve(u)))))))) == u >> 8
  {}

  lemma EightSteps<S>(f: S -> S, x: S)
    ensures Iterate(f, x, 8) == f(f(f(f(f(f(f(f(x))))))))
  {}

  lemma SevenSteps<S>(f: S -> S, x: S)
    ensures Iterate(f, x, 7) == f(f(f(f(f(f(f(x)))))))
  {
    var y := f(f(f(x)));
    assert Iterate(f, x, 7) == Iterate(f, f(x), 6) == Iterate(f, y, 4) == Iterate(f, f(f(y)), 2);
  }

  lemma IterateEight(u: bv32)
    ensures Iterate(Halve, u, 8) == u >> 8
  {
    EightSteps(Halve, u);
    HalveEight(u);
  }

  lemma {:induction false} FitsIterate(u: bv32, m: nat, n: nat)
    ensures Fits(u, m + n) == Fits(Iterate(Halve, u, m), n)
    decreases m
  {
    if m > 0 {
      FitsIterate(Halve(u), m - 1, n);
    }
  }

  lemma FitsByte(u: bv32, n: nat)
    ensures Fits(u, n + 8) == Fits(u >> 8, n)
  {
    FitsIterate(u, 8, n);
    IterateEight(u);
  }

  lemma FitsSevenHalves(v: bv32)
    ensures Fits(v, 7) == (Halve(Halve(Halve(Halve(Halve(Halve(Halve(v))))))) == 0)
  {
    FitsIterate(v, 7, 0);
    SevenSteps(Halve, v);
  }

  lemma TopClear(u: bv32)
    requires Halve(Halve(Halve(Halve(Halve(Halve(Halve(u >> 8 >> 8 >> 8))))))) == 0
    ensures u < 0x8000_0000
  {}

  lemma FitsTop(u: bv32, n: nat)
    requires Fits(u, n) && n <= 31
    ensures u < 0x8000_0000
  {
    FitsMore(u, n, 31);
    var u1 := FitsShifted(u, 23);
    var u2 := FitsShifted(u1, 15);
    var u3 := FitsShifted(u2, 7);
    SevenLeft(u, u1, u2, u3);
  }

  lemma FitsShifted(u: bv32, n: nat) returns (v: bv32)
    requires Fits(u, n + 8)
    ensures v == u >> 8 && Fits(v, n)
  {
    FitsByte(u, n);
    v := u >> 8;
  }

  lemma SevenLeft(u: bv32, u1: bv32, u2: bv32, u3: bv32)
    requires Fits(u3, 7) && u3 == u2 >> 8 && u2 == u1 >> 8 && u1 == u >> 8
    ensures u < 0x8000_0000
  {
    FitsSevenHalves(u3);
    TopClear(u);
  }

  /** Taking in one bit and mixing in the rest is mixing in all of them and making one bit step. */
  ghost predicate Absorbs<S(!new)>(take: (S, bool) -> S, bit: S -> S, mix: (S, seq<bool>) -> S) {
    && (forall r :: mix(r, []) == r)
    && (forall r, s {:trigger mix(r, s)} :: 0 < |s| <= 32 ==> mix(take(r, s[0]), s[1..]) == bit(mix(r, s)))
  }

  lemma {:induction false} RunAbsorbs<S(!new)>(
      take: (S, bool) -> S, bit: S -> S, mix: (S, seq<bool>) -> S, r: S, s: seq<bool>)
    requires Absorbs(take, bit, mix) && |s| <= 32
    ensures Run(take, r, s) == Iterate(bit, mix(r, s), |s|)
    decreases |s|
  {
    if s != [] {
      RunAbsorbs(take, bit, mix, take(r, s[0]), s[1..]);
    }
  }

  function Mix(r: bv32, s: seq<bool>): bv32 {
    Xor(r, Word(s))
  }

  lemma TakeBitAbsorbs()
    ensures Absorbs(TakeBit, Bit, Mix)
  {
    forall r ensures Mix(r, []) == r {
      MixNothing(r);
    }
    forall r, s: seq<bool> | 0 < |s| <= 32 ensures Mix(TakeBit(r, s[0]), s[1..]) == Bit(Mix(r, s)) {
      MixOne(r, s);
    }
  }

  lemma MixOne(r: bv32, s: seq<bool>)
    requires 0 < |s| <= 32
    ensures Mix(TakeBit(r, s[0]), s[1..]) == Bit(Mix(r, s))
  {
    WordFits(s[1..]);
    TakeOne(r, s[0], Word(s[1..]), Word(s));
  }

  lemma MixNothing(r: bv32)
    ensures Mix(r, []) == r
  {}

  lemma {:induction false} WordFits(s: seq<bool>)
    requires |s| <= 31
    ensures Word(s) < 0x8000_0000 && Fits(Word(s), |s|)
  {
    if s != [] {
      WordFits(s[1..]);
      Uncons(s[0], Word(s[1..]));
    }
    FitsTop(Word(s), |s|);
  }

  lemma {:induction false} WordInjective(s: seq<bool>, t: seq<bool>)
    requires |s| == |t| <= 32 && Word(s) == Word(t)
    ensures s == t
  {
    if s != [] {
      WordFits(s[1..]);
      WordFits(t[1..]);
      Uncons(s[0], Word(s[1..]));
      Uncons(t[0], Word(t[1..]));
      WordInjective(s[1..], t[1..]);
    }
  }

  /** Taking in a byte is taking in its eight bits. */
  lemma TakeByteBits(r: bv32, b: byte)
    ensures TakeByte(r, b) == Run(TakeBit, r, ByteBits(b))
  {
    TakeBitAbsorbs();
    RunAbsorbs(TakeBit, Bit, Mix, r, ByteBits(b));
  }

  lemma {:induction false} FeedBits(r: bv32, data: bytes)
    ensures Feed(r, data) == Run(TakeBit, r, Bits(data))
    decreases |data|
  {
    if data != [] {
      TakeByteBits(r, data[0]);
      FeedBits(TakeByte(r, data[0]), data[1..]);
      RunConcat(TakeBit, r, ByteBits(data[0]), Bits(data[1..]));
    }
  }

  lemma {:induction false} BitsConcat(a: bytes, b: bytes)
    ensures Bits(a + b) == Bits(a) + Bits(b)
  {
    if a == [] {
      assert a + b == b;
    } else {
      assert (a + b)[1..] == a[1..] + b;
      BitsConcat(a[1..], b);
    }
  }

  lemma {:induction false} BitsInjective(a: bytes, b: bytes)
    requires |a| == |b| && Bits(a) == Bits(b)
    ensures a == b
  {
    if a != [] {
      assert Bits(a)[..8] == ByteBits(a[0]) && Bits(a)[8..] == Bits(a[1..]);
      assert Bits(b)[..8] == ByteBits(b[0]) && Bits(b)[8..] == Bits(b[1..]);
      ByteBitsInjective(a[0], b[0]);
      BitsInjective(a[1..], b[1..]);
    }
  }

  lemma ByteBitsInjective(a: byte, b: byte)
    requires ByteBits(a) == ByteBits(b)
    ensures a == b
  {
    assert Pow2(8) == 0x100;
    BitsOfInjective(a, b, 8);
  }

  lemma {:induction false} BitsOfInjective(x: nat, y: nat, n: nat)
    requires x < Pow2(n) && y < Pow2(n) && BitsOf(x, n) == BitsOf(y, n)
    ensures x == y
    decreases n
  {
    if n > 0 {
      assert BitsOf(x, n)[0] == BitsOf(y, n)[0];
      assert BitsOf(x, n)[1..] == BitsOf(x / 2, n - 1) && BitsOf(y, n)[1..] == BitsOf(y / 2, n - 1);
      BitsOfInjective(x / 2, y / 2, n - 1);
    }
  }

  lemma {:induction false} ValueOfInjective(s: seq<bool>, t: seq<bool>)
    requires |s| == |t| && ValueOf(s) == ValueOf(t)
    ensures s == t
  {
    if s != [] {
      ValueOfInjective(s[1..], t[1..]);
      assert s == [s[0]] + s[1..] && t == [t[0]] + t[1..];
    }
  }

  lemma HalveInjective(u: bv32, v: bv32)
    requires (u & 1 == 1) == (v & 1 == 1) && Halve(u) == Halve(v)
    ensures u == v
  {}

  lemma {:induction false} WordBitsInjective(u: bv32, v: bv32, n: nat)
    requires Fits(u, n) && Fits(v, n) && WordBits(u, n) == WordBits(v, n)
    ensures u == v
    decreases n
  {
    if n > 0 {
      assert WordBits(u, n)[0] == WordBits(v, n)[0];
      assert WordBits(u, n)[1..] == WordBits(Halve(u), n - 1) && WordBits(v, n)[1..] == WordBits(Halve(v), n - 1);
      WordBitsInjective(Halve(u), Halve(v), n - 1);
      HalveInjective(u, v);
    }
  }

  lemma ShiftTwo(u: bv32)
    ensures u >> 8 >> 8 == u >> 16
  {}

  lemma ShiftThree(u: bv32)
    ensures u >> 16 >> 8 == u >> 24
  {}

  lemma ShiftFour(u: bv32)
    ensures u >> 24 >> 8 == 0
  {}

  lemma FitsAll(u: bv32)
    ensures Fits(u, 32)
  {
    ShiftTwo(u);
    ShiftThree(u);
    ShiftFour(u);
    FitsByte(u >> 24, 0);
    FitsByte(u >> 16, 8);
    FitsByte(u >> 8, 16);
    FitsByte(u, 24);
  }

  lemma {:induction false} DigitsConcat<S>(low: S -> bool, half: S -> S, x: S, m: nat, n: nat)
    ensures Digits(low, half, x, m + n) == Digits(low, half, x, m) + Digits(low, half, Iterate(half, x, m), n)
    decreases m
  {
    if m > 0 {
      DigitsConcat(low, half, half(x), m - 1, n);
    }
  }

  lemma FourGroups<S>(low: S -> bool, half: S -> S, x: S, x1: S, x2: S, x3: S)
    requires x1 == Iterate(half, x, 8) && x2 == Iterate(half, x1, 8) && x3 == Iterate(half, x2, 8)
    ensures Digits(low, half, x, 32)
         == Digits(low, half, x, 8) + (Digits(low, half, x1, 8) + (Digits(low, half, x2, 8) + Digits(low, half, x3, 8)))
  {
    DigitsConcat(low, half, x, 8, 24);
    DigitsConcat(low, half, x1, 8, 16);
    DigitsConcat(low, half, x2, 8, 8);
  }

  /** The bits of a word are those of its four bytes, the lowest first. */
  lemma FourBytes(c: bv32)
    ensures WordBits(c, 32) == WordBits(c, 8) + (WordBits(c >> 8, 8) + (WordBits(c >> 16, 8) + WordBits(c >> 24, 8)))
  {
    IterateEight(c);
    SecondByte(c);
    ThirdByte(c);
    FourGroups(LowBit, Halve, c, c >> 8, c >> 16, c >> 24);
  }

  lemma SecondByte(c: bv32)
    ensures Iterate(Halve, c >> 8, 8) == c >> 16
  {}

  lemma ThirdByte(c: bv32)
    ensures Iterate(Halve, c >> 16, 8) == c >> 24
  {}

  lemma PutWordInjective(c: bv32, d: bv32)
    requires PutWord(c) == PutWord(d)
    ensures c == d
  {
    SameBits(c, d);
    FitsAll(c);
    FitsAll(d);
    WordBitsInjective(c, d, 32);
  }

  lemma SameBits(c: bv32, d: bv32)
    requires PutWord(c) == PutWord(d)
    ensures WordBits(c, 32) == WordBits(d, 32)
  {
    assert PutWord(c)[0] == PutWord(d)[0] && PutWord(c)[1] == PutWord(d)[1];
    assert PutWord(c)[2] == PutWord(d)[2] && PutWord(c)[3] == PutWord(d)[3];
    ValueOfInjective(WordBits(c >> 24, 8), WordBits(d >> 24, 8));
    ValueOfInjective(WordBits(c >> 16, 8), WordBits(d >> 16, 8));
    ValueOfInjective(WordBits(c >> 8, 8), WordBits(d >> 8, 8));
    ValueOfInjective(WordBits(c, 8), WordBits(d, 8));
    FourBytes(c);
    FourBytes(d);
  }

  // ----- the bytes of a word are its big-endian value -----

  lemma Regroup(a: nat, b: nat, c: nat)
    ensures (a * b) * c == a * (b * c)
  {}

  lemma {:induction false} ValueOfConcat(s: seq<bool>, t: seq<bool>)
    ensures ValueOf(s + t) == ValueOf(s) + Pow2(|s|) * ValueOf(t)
  {
    if s == [] {
      assert s + t == t;
    } else {
      assert (s + t)[0] == s[0] && (s + t)[1..] == s[1..] + t;
      ValueOfConcat(s[1..], t);
      Regroup(2, Pow2(|s| - 1), ValueOf(t));
    }
  }

  lemma FourValues(b0: seq<bool>, b1: seq<bool>, b2: seq<bool>, b3: seq<bool>)
    requires |b0| == |b1| == |b2| == |b3| == 8
    ensures ValueOf(b0 + (b1 + (b2 + b3)))
         == ValueOf(b0) + 0x100 * (ValueOf(b1) + 0x100 * (ValueOf(b2) + 0x100 * ValueOf(b3)))
  {
    BytePrepended(b0, b1 + (b2 + b3));
    BytePrepended(b1, b2 + b3);
    BytePrepended(b2, b3);
  }

  lemma BytePrepended(b: seq<bool>, t: seq<bool>)
    requires |b| == 8
    ensures ValueOf(b + t) == ValueOf(b) + 0x100 * ValueOf(t)
  {
    ValueOfConcat(b, t);
    assert Pow2(8) == 0x100;
  }

  /** The four bytes, read as a big-endian number, are the word read as a number. */
  lemma PutWordBigEndian(c: bv32)
    ensures GetU32(PutWord(c)) == ValueOf(WordBits(c, 32))
  {
    FourBytes(c);
    FourValues(WordBits(c, 8), WordBits(c >> 8, 8), WordBits(c >> 16, 8), WordBits(c >> 24, 8));
    BytesOfWord(c);
  }

  lemma BytesOfWord(c: bv32)
    ensures GetU16(PutWord(c)) == 0x100 * ValueOf(WordBits(c >> 24, 8)) + ValueOf(WordBits(c >> 16, 8))
    ensures GetU16(PutWord(c)[2..]) == 0x100 * ValueOf(WordBits(c >> 8, 8)) + ValueOf(WordBits(c, 8))
  {}

  // ----- a known answer -----

  lemma WordEight(s: seq<bool>)
    requires |s| == 8
    ensures Word(s) == Cons(s[0], Cons(s[1], Cons(s[2], Cons(s[3], Cons(s[4], Cons(s[5], Cons(s[6], Cons(s[7], 0))))))))
  {
    WordTwo(s);
    WordTwo(s[2..]);
    WordTwo(s[4..]);
    WordTwo(s[6..]);
    assert s[2..][2..] == s[4..] && s[4..][2..] == s[6..] && s[6..][2..] == [];
  }

  lemma WordTwo(s: seq<bool>)
    requires |s| >= 2
    ensures Word(s) == Cons(s[0], Cons(s[1], Word(s[2..])))
  {}

  lemma WordOfA()
    ensures Widen(97) == 97
  {
    assert ByteBits(97) == [true, false, false, false, false, true, true, false];
    WordEight(ByteBits(97));
  }

  /** The CRC-32 of the one-character string "a" is E8B7BE43. */
  lemma KnownAnswer()
    ensures Checksum([97]) == 0xE8B7_BE43
  {
    WordOfA();
    EightSteps(Bit, Xor(INITIAL, 97));
    assert Feed(INITIAL, [97]) == Feed(TakeByte(INITIAL, 97), []);
  }

  lemma DigitsFour<S>(low: S -> bool, half: S -> S, x0: S, x1: S, x2: S, x3: S)
    requires x1 == half(x0) && x2 == half(x1) && x3 == half(x2)
    ensures Digits(low, half, x0, 4) == [low(x0), low(x1), low(x2), low(x3)]
    ensures Iterate(half, x0, 4) == half(x3)
  {
    assert Digits(low, half, x2, 2) == [low(x2), low(x3)];
    assert Iterate(half, x2, 2) == half(x3);
  }

  lemma EightHalves(x0: bv32, x1: bv32, x2: bv32, x3: bv32, x4: bv32, x5: bv32, x6: bv32, x7: bv32)
    requires x1 == Halve(x0) && x2 == Halve(x1) && x3 == Halve(x2) && x4 == Halve(x3)
    requires x5 == Halve(x4) && x6 == Halve(x5) && x7 == Halve(x6)
    ensures LowByte(x0) == Nibble(LowBit(x0), LowBit(x1), LowBit(x2), LowBit(x3))
                         + 16 * Nibble(LowBit(x4), LowBit(x5), LowBit(x6), LowBit(x7))
  {
    DigitsFour(LowBit, Halve, x0, x1, x2, x3);
    DigitsFour(LowBit, Halve, x4, x5, x6, x7);
    DigitsConcat(LowBit, Halve, x0, 4, 4);
    var s, t := Digits(LowBit, Halve, x0, 4), Digits(LowBit, Halve, x4, 4);
    ValueOfConcat(s, t);
    assert Pow2(4) == 16;
    NibbleValue(s);
    NibbleValue(t);
  }

  function Nibble(a: bool, b: bool, c: bool, d: bool): nat {
    (if a then 1 else 0) + (if b then 2 else 0) + (if c then 4 else 0) + (if d then 8 else 0)
  }

  lemma NibbleValue(s: seq<bool>)
    requires |s| == 4
    ensures ValueOf(s) == Nibble(s[0], s[1], s[2], s[3])
  {
    assert ValueOf(s[2..]) == (if s[2] then 1 else 0) + (if s[3] then 2 else 0);
  }

  /** And these are its bytes on the wire. */
  lemma KnownBytes()
    ensures PutWord(0xE8B7_BE43) == [0xE8, 0xB7, 0xBE, 0x43]
  {
    EightHalves(0xE8B7BE43, 0x745BDF21, 0x3A2DEF90, 0x1D16F7C8, 0xE8B7BE4, 0x745BDF2, 0x3A2DEF9, 0x1D16F7C);
    EightHalves(0xE8B7BE, 0x745BDF, 0x3A2DEF, 0x1D16F7, 0xE8B7B, 0x745BD, 0x3A2DE, 0x1D16F);
    EightHalves(0xE8B7, 0x745B, 0x3A2D, 0x1D16, 0xE8B, 0x745, 0x3A2, 0x1D1);
    EightHalves(0xE8, 0x74, 0x3A, 0x1D, 0xE, 0x7, 0x3, 0x1);
  }

  // ----- error bursts -----

  /** `e` differs from `d` in at most 32 consecutive bits, the first of them bit `p`. */
  ghost predicate BurstAt(d: bytes, e: bytes, p: nat) {
    && |d| == |e|
    && forall k | 0 <= k < 8 * |d| && !(p <= k < p + 32) :: Bits(d)[k] == Bits(e)[k]
  }

  /** No error burst of at most 32 bits, at any bit offset, keeps the checksum. */
  lemma BurstDetected(d: bytes, e: bytes, p: nat)
    requires |d| >= 4 && BurstAt(d, e, p)
    requires Checksum(d) == Checksum(e)
    ensures d == e
  {
    XorInjective(Feed(INITIAL, d), Feed(INITIAL, e));
    var q := if p + 32 <= 8 * |d| then p else 8 * |d| - 32;
    assert BurstAt(d, e, q);
    FeedTellsBursts(INITIAL, d, e, q);
  }

  lemma FeedTellsBursts(r: bv32, d: bytes, e: bytes, p: nat)
    requires p + 32 <= 8 * |d| && BurstAt(d, e, p)
    requires Feed(r, d) == Feed(r, e)
    ensures d == e
  {
    FeedBits(r, d);
    FeedBits(r, e);
    RunTellsBursts(r, Bits(d), Bits(e), p);
    BitsInjective(d, e);
  }

  lemma RunTellsBursts(r: bv32, s: seq<bool>, t: seq<bool>, p: nat)
    requires |s| == |t| && p + 32 <= |s|
    requires forall k | 0 <= k < |s| && !(p <= k < p + 32) :: s[k] == t[k]
    requires Run(TakeBit, r, s) == Run(TakeBit, r, t)
    ensures s == t
  {
    var before, after := s[..p], s[p + 32..];
    Cut(s, p);
    Cut(t, p);
    assert t[..p] == before && t[p + 32..] == after;
    SameMiddle(r, before, s[p..p + 32], t[p..p + 32], after);
  }

  lemma Cut(s: seq<bool>, p: nat)
    requires p + 32 <= |s|
    ensures s == s[..p] + s[p..p + 32] + s[p + 32..]
  {}

  lemma XorInjective(x: bv32, y: bv32)
    requires Xor(x, 0xFFFF_FFFF) == Xor(y, 0xFFFF_FFFF)
    ensures x == y
  {}

  lemma SameMiddle(r: bv32, before: seq<bool>, m: seq<bool>, m': seq<bool>, after: seq<bool>)
    requires |m| == |m'| <= 32
    requires Run(TakeBit, r, before + m + after) == Run(TakeBit, r, before + m' + after)
    ensures m == m'
  {
    var x := Run(TakeBit, r, before);
    RunConcat(TakeBit, r, before + m, after);
    RunConcat(TakeBit, r, before, m);
    RunConcat(TakeBit, r, before + m', after);
    RunConcat(TakeBit, r, before, m');
    TakeBitInjective();
    RunInjective(TakeBit, Run(TakeBit, x, m), Run(TakeBit, x, m'), after);
    RegisterTellsWords(x, m, m');
  }

  /** Different words of the same length leave different registers. */
  lemma RegisterTellsWords(x: bv32, m: seq<bool>, m': seq<bool>)
    requires |m| == |m'| <= 32 && Run(TakeBit, x, m) == Run(TakeBit, x, m')
    ensures m == m'
  {
    TakeBitAbsorbs();
    RunAbsorbs(TakeBit, Bit, Mix, x, m);
    RunAbsorbs(TakeBit, Bit, Mix, x, m');
    forall a, b | Bit(a) == Bit(b) ensures a == b {
      BitInjective(a, b);
    }
    IterateInjective(Bit, Mix(x, m), Mix(x, m'), |m|);
    MixInjective(x, m, m');
  }

  lemma MixInjective(x: bv32, m: seq<bool>, m': seq<bool>)
    requires |m| == |m'| <= 32 && Mix(x, m) == Mix(x, m')
    ensures m == m'
  {
    XorLeft(x, Word(m), Word(m'));
    WordInjective(m, m');
  }

  lemma XorLeft(x: bv32, u: bv32, v: bv32)
    requires Xor(x, u) == Xor(x, v)
    ensures u == v
  {}

  /** A change confined to four consecutive bytes is such a burst. */
  lemma FourBytesAreABurst(d: bytes, e: bytes, i: nat)
    requires |d| == |e|
    requires forall k | 0 <= k < |d| && !(i <= k < i + 4) :: d[k] == e[k]
    ensures BurstAt(d, e, 8 * i)
  {
    forall k | 0 <= k < 8 * |d| && !(8 * i <= k < 8 * i + 32) ensures Bits(d)[k] == Bits(e)[k] {
      BitIsInByte(d, k / 8, k % 8);
      BitIsInByte(e, k / 8, k % 8);
    }
  }

  lemma {:induction false} BitIsInByte(d: bytes, j: nat, i: nat)
    requires j < |d| && i < 8
    ensures Bits(d)[8 * j + i] == ByteBits(d[j])[i]
    decreases j
  {
    if j > 0 {
      BitIsInByte(d[1..], j - 1, i);
    }
  }
}
