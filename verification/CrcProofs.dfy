/** The table-driven CRC is the bit-by-bit one, it tells buffers apart, and it can be chained. */
module CrcProofs {
  import opened Bitwise
  import opened CrcModel

  lemma WordSize()
    ensures Pow2(8) == 0x100 && Pow2(32) == 0x1_0000_0000
  {
    assert Pow2(8) == 0x100;
    assert Pow2(16) == 0x1_0000;
    assert Pow2(24) == 0x100_0000;
  }

  predicate Word(x: nat) { x < 0x1_0000_0000 }

  lemma XorWord32(x: nat, y: nat)
    requires Word(x) && Word(y)
    ensures Word(Xor(x, y))
  {
    WordSize();
    XorWord(x, y, 32);
  }

  lemma StepsWord(x: nat, n: nat)
    requires Word(x)
    ensures Word(Steps(x, n))
    decreases n
  {
    if n > 0 {
      XorWord32(x / 2, if x % 2 == 1 then POLYNOMIAL else 0);
      StepsWord(Step(x), n - 1);
    }
  }

  /* Steps are linear. */

  lemma XorSwap(a: nat, b: nat, c: nat, d: nat)
    ensures Xor(Xor(a, b), Xor(c, d)) == Xor(Xor(a, c), Xor(b, d))
  {
    XorAssoc(a, b, Xor(c, d));
    XorAssoc(b, c, d);
    XorComm(b, c);
    XorAssoc(c, b, d);
    XorAssoc(a, c, Xor(b, d));
  }

  lemma StepXor(x: nat, y: nat)
    ensures Step(Xor(x, y)) == Xor(Step(x), Step(y))
  {
    var p, q := if x % 2 == 1 then POLYNOMIAL else 0, if y % 2 == 1 then POLYNOMIAL else 0;
    XorHalves(x, y);
    XorSwap(x / 2, p, y / 2, q);
    XorSelf(POLYNOMIAL);
  }

  lemma {:induction false} StepsXor(x: nat, y: nat, n: nat)
    ensures Steps(Xor(x, y), n) == Xor(Steps(x, n), Steps(y, n))
    decreases n
  {
    if n > 0 {
      StepXor(x, y);
      StepsXor(Step(x), Step(y), n - 1);
    }
  }

  lemma {:induction false} StepsAdd(x: nat, m: nat, k: nat, n: nat)
    requires n == m + k
    ensures Steps(Steps(x, m), k) == Steps(x, n)
    decreases m
  {
    if m > 0 {
      StepsAdd(Step(x), m - 1, k, n - 1);
    }
  }

  /** Bits that are not reached are shifted down. */
  lemma {:induction false} StepsShift(y: nat, n: nat)
    ensures Steps(ShiftLeft(y, n), n) == y
  {
    if n > 0 {
      assert ShiftLeft(y, n) == 2 * ShiftLeft(y, n - 1);
      StepsShift(y, n - 1);
    }
  }

  lemma {:induction false} ShiftRightXor(x: nat, y: nat, k: nat)
    ensures ShiftRight(Xor(x, y), k) == Xor(ShiftRight(x, k), ShiftRight(y, k))
  {
    if k > 0 {
      XorHalves(x, y);
      ShiftRightXor(x / 2, y / 2, k - 1);
    }
  }

  /* The table */

  /** Taking the lower bits and moving the others down is taking the steps on the whole word. */
  lemma StepsSplit(x: nat, n: nat)
    ensures Steps(x, n) == Xor(Steps(Low(x, n), n), ShiftRight(x, n))
  {
    Split(x, n);
    XorDisjoint(Low(x, n), ShiftRight(x, n), n);
    StepsXor(Low(x, n), ShiftLeft(ShiftRight(x, n), n), n);
    StepsShift(ShiftRight(x, n), n);
  }

  /** Looking a byte up is the same as taking its bits one by one. */
  lemma FeedIsSteps(crc: nat, b: Byte)
    ensures Feed(crc, b) == Steps(Xor(crc, b), 8)
  {
    WordSize();
    StepsSplit(Xor(crc, b), 8);
    ShiftRightXor(crc, b, 8);
    Split(b, 8);
  }

  lemma {:induction false} FeedsAreSteps(crc: nat, buf: seq<Byte>)
    ensures FeedAll(crc, buf) == ByInstruction(crc, buf)
    decreases |buf|
  {
    if buf != [] {
      FeedIsSteps(crc, buf[0]);
      FeedsAreSteps(Feed(crc, buf[0]), buf[1..]);
    }
  }

  /* The reference */

  lemma {:induction false} HalfBits(x: nat, n: nat)
    requires n > 0 && x < Pow2(n)
    ensures ToBits(x / 2, n) == ToBits(x, n)[1..] + [false]
  {
    assert Pow2(n) == 2 * Pow2(n - 1);
    if n > 1 {
      HalfBits(x / 2, n - 1);
      assert ToBits(x, n)[1..] == ToBits(x / 2, n - 1);
      assert ToBits(x / 2, n) == [(x / 2) % 2 == 1] + ToBits(x / 2 / 2, n - 1);
      assert ToBits(x / 2, n - 1) == [(x / 2) % 2 == 1] + ToBits(x / 2, n - 1)[1..];
    }
  }

  lemma {:induction false} BitsXor(x: nat, y: nat, n: nat)
    ensures ToBits(Xor(x, y), n) == XorBits(ToBits(x, n), ToBits(y, n))
  {
    if n > 0 {
      XorHalves(x, y);
      BitsXor(x / 2, y / 2, n - 1);
      assert ToBits(x, n)[1..] == ToBits(x / 2, n - 1) && ToBits(y, n)[1..] == ToBits(y / 2, n - 1);
    }
  }

  /** The number with the given bits, the lowest first. */
  function FromBits(s: seq<bool>): nat {
    if s == [] then 0 else (if s[0] then 1 else 0) + 2 * FromBits(s[1..])
  }

  lemma {:induction false} ToFromBits(s: seq<bool>)
    ensures ToBits(FromBits(s), |s|) == s
  {
    if s != [] {
      ToFromBits(s[1..]);
    }
  }

  lemma FromFour(a: bool, b: bool, c: bool, d: bool, rest: seq<bool>)
    ensures FromBits([a, b, c, d] + rest)
         == (if a then 1 else 0) + (if b then 2 else 0) + (if c then 4 else 0) + (if d then 8 else 0)
            + 16 * FromBits(rest)
  {
    var s := [a, b, c, d] + rest;
    assert s[1..] == [b, c, d] + rest && s[1..][1..] == [c, d] + rest;
    assert s[1..][1..][1..] == [d] + rest && s[1..][1..][1..][1..] == rest;
    assert FromBits(s) == (if a then 1 else 0) + 2 * FromBits(s[1..]);
    assert FromBits(s[1..]) == (if b then 1 else 0) + 2 * FromBits(s[1..][1..]);
    assert FromBits(s[1..][1..]) == (if c then 1 else 0) + 2 * FromBits(s[1..][1..][1..]);
    assert FromBits(s[1..][1..][1..]) == (if d then 1 else 0) + 2 * FromBits(rest);
  }

  /** The constant of the table is the polynomial with its coefficients reversed. */
  lemma PolynomialReversed()
    ensures ToBits(POLYNOMIAL, 32) == GENERATOR
  {
    var g7: seq<bool> := [false, true, true, true];
    var g6 := [true, false, true, true] + g7;
    var g5 := [true, true, false, true] + g6;
    var g4 := [false, false, false, true] + g5;
    var g3 := [false, false, false, true] + g4;
    var g2 := [true, true, false, false] + g3;
    var g1 := [false, true, false, false] + g2;
    assert g7 + [] == g7;
    FromFour(false, true, true, true, []);
    FromFour(true, false, true, true, g7);
    FromFour(true, true, false, true, g6);
    FromFour(false, false, false, true, g5);
    FromFour(false, false, false, true, g4);
    FromFour(true, true, false, false, g3);
    FromFour(false, true, false, false, g2);
    FromFour(false, false, false, false, g1);
    assert FromBits(GENERATOR) == POLYNOMIAL;
    ToFromBits(GENERATOR);
  }

  lemma {:induction false} ZeroBits(n: nat)
    ensures ToBits(0, n) == seq(n, _ => false)
  {
    if n > 0 {
      ZeroBits(n - 1);
    }
  }

  /** One step of the table's words is one shift of the reference's register. */
  lemma StepIsShift(x: nat, bit: nat)
    requires Word(x) && bit <= 1
    ensures ToBits(Step(Xor(x, bit)), 32) == Shift(ToBits(x, 32), bit == 1)
    ensures Word(Step(Xor(x, bit)))
  {
    WordSize();
    var y := Xor(x, bit);
    XorHalves(x, bit);
    assert bit / 2 == 0 && Xor(x / 2, 0) == x / 2;
    HalfBits(x, 32);
    var p := if y % 2 == 1 then POLYNOMIAL else 0;
    BitsXor(x / 2, p, 32);
    PolynomialReversed();
    ZeroBits(32);
    XorWord32(x / 2, p);
    assert y % 2 == 1 <==> ToBits(x, 32)[0] != (bit == 1);
    if y % 2 != 1 {
      assert ToBits(y / 2, 32) == ToBits(x / 2, 32);
    }
  }

  /** One step takes the lowest bit of `b` and moves the others down. */
  lemma StepThen(x: nat, b: nat)
    ensures Step(Xor(x, b)) == Xor(Step(Xor(x, b % 2)), b / 2)
  {
    var b0, rest := b % 2, b / 2;
    XorHalves(b0, 2 * rest);
    assert (2 * rest) / 2 == rest && (2 * rest) % 2 == 0 && b0 / 2 == 0 && Xor(0, rest) == rest;
    SameNumber(Xor(b0, 2 * rest), b);
    XorAssoc(x, b0, 2 * rest);
    StepXor(Xor(x, b0), 2 * rest);
    assert Step(2 * rest) == Xor(rest, 0) == rest;
  }

  /** The bits of `b` from the lowest on, taken by the steps and by the reference. */
  lemma {:induction false} StepsAreShifts(x: nat, b: nat, n: nat)
    requires Word(x) && b < Pow2(n)
    ensures ToBits(Steps(Xor(x, b), n), 32) == ShiftAll(ToBits(x, 32), ToBits(b, n))
    decreases n
  {
    if n == 0 {
      assert Xor(x, 0) == x;
    } else {
      assert Pow2(n) == 2 * Pow2(n - 1);
      StepThen(x, b);
      StepIsShift(x, b % 2);
      StepsAreShifts(Step(Xor(x, b % 2)), b / 2, n - 1);
      assert ToBits(b, n)[0] == (b % 2 == 1) && ToBits(b, n)[1..] == ToBits(b / 2, n - 1);
    }
  }

  lemma {:induction false} ShiftAllConcat(r: seq<bool>, a: seq<bool>, b: seq<bool>)
    requires |r| == 32
    ensures ShiftAll(r, a + b) == ShiftAll(ShiftAll(r, a), b)
    decreases |a|
  {
    if a == [] {
      assert a + b == b;
    } else {
      assert (a + b)[1..] == a[1..] + b;
      ShiftAllConcat(Shift(r, a[0]), a[1..], b);
    }
  }

  lemma {:induction false} FeedAllIsReference(crc: nat, buf: seq<Byte>)
    requires Word(crc)
    ensures Word(FeedAll(crc, buf)) && ToBits(FeedAll(crc, buf), 32) == ShiftAll(ToBits(crc, 32), Message(buf))
    decreases |buf|
  {
    if buf != [] {
      WordSize();
      FeedIsSteps(crc, buf[0]);
      XorWord32(crc, buf[0]);
      StepsWord(Xor(crc, buf[0]), 8);
      StepsAreShifts(crc, buf[0], 8);
      FeedAllIsReference(Feed(crc, buf[0]), buf[1..]);
      ShiftAllConcat(ToBits(crc, 32), ToBits(buf[0], 8), Message(buf[1..]));
    }
  }

  /** On every buffer the table-driven CRC is the bit-by-bit one. */
  lemma GptCrcIsReference(buf: seq<Byte>)
    ensures Word(GptCrc(buf)) && ToBits(GptCrc(buf), 32) == Reference(buf)
  {
    FeedAllIsReference(ONES, buf);
    XorWord32(FeedAll(ONES, buf), ONES);
    BitsXor(FeedAll(ONES, buf), ONES, 32);
  }

  /* Chaining */

  lemma {:induction false} TakeConcat(crc: nat, a: seq<Byte>, b: seq<Byte>, width: nat)
    ensures Take(crc, a + b, width) == Take(Take(crc, a, width), b, width)
    decreases |a|
  {
    if a == [] {
      assert a + b == b;
    } else {
      assert (a + b)[1..] == a[1..] + b;
      TakeConcat(Steps(Xor(crc, a[0]), width), a[1..], b, width);
    }
  }

  /** Seeded with the CRC of a prefix, the accumulation gives the CRC of the whole. */
  lemma TfCrcChains(crc: nat, a: seq<Byte>, b: seq<Byte>)
    ensures TfCrc(TfCrc(crc, a), b) == TfCrc(crc, a + b)
  {
    var mid := ByInstruction(Xor(crc, ONES), a);
    XorAssoc(mid, ONES, ONES);
    XorSelf(ONES);
    TakeConcat(Xor(crc, ONES), a, b, 8);
  }

  /** Both programs compute the same CRC. */
  lemma TfCrcIsGptCrc(buf: seq<Byte>)
    ensures TfCrc(0, buf) == GptCrc(buf)
  {
    FeedsAreSteps(ONES, buf);
  }

  /* Telling buffers apart */

  /** A step loses nothing. */
  lemma StepInjective(x: nat, y: nat)
    requires Word(x) && Word(y) && Step(x) == Step(y)
    ensures x == y
  {
    HighestBit(x);
    HighestBit(y);
    var p := if x % 2 == 1 then POLYNOMIAL else 0;
    XorComm(x / 2, p);
    XorComm(y / 2, p);
    XorCancel(p, x / 2, y / 2);
  }

  /** The highest bit of a step tells the lowest bit of the word. */
  lemma HighestBit(x: nat)
    requires Word(x)
    ensures x % 2 == 1 <==> Step(x) >= 0x8000_0000
  {
    WordSize();
    assert Pow2(31) == 0x8000_0000 by {
      assert Pow2(32) == 2 * Pow2(31);
    }
    var h, rest := x / 2, POLYNOMIAL - 0x8000_0000;
    assert h < Pow2(31) && rest < Pow2(31);
    if x % 2 == 1 {
      // The polynomial is its highest bit and the rest.
      XorDisjoint(rest, 1, 31);
      OneShifted(31);
      XorAssoc(h, rest, 0x8000_0000);
      XorWord(h, rest, 31);
      XorDisjoint(Xor(h, rest), 1, 31);
    } else {
      assert Step(x) == Xor(h, 0) == h;
    }
  }

  lemma {:induction false} OneShifted(k: nat)
    ensures ShiftLeft(1, k) == Pow2(k)
  {
    if k > 0 {
      OneShifted(k - 1);
    }
  }

  lemma {:induction false} StepsInjective(x: nat, y: nat, n: nat)
    requires Word(x) && Word(y) && Steps(x, n) == Steps(y, n)
    ensures x == y
    decreases n
  {
    if n > 0 {
      StepsWord(x, 1);
      StepsWord(y, 1);
      assert Steps(x, 1) == Step(x) && Steps(y, 1) == Step(y);
      StepsInjective(Step(x), Step(y), n - 1);
      StepInjective(x, y);
    }
  }

  /** A few bytes as one word, the first byte lowest. */
  function Packed(u: seq<Byte>, width: nat): nat {
    if u == [] then 0 else u[0] + ShiftLeft(Packed(u[1..], width), width)
  }

  /** The number of bits of a few bytes. */
  function Width(u: seq<Byte>, width: nat): nat {
    if u == [] then 0 else width + Width(u[1..], width)
  }

  predicate Fit(u: seq<Byte>, width: nat) { forall i :: 0 <= i < |u| ==> u[i] < Pow2(width) }

  /** The upper part of a word of two parts. */
  lemma {:induction false} UpperPart(b: nat, p: nat, width: nat)
    requires b < Pow2(width)
    ensures ShiftRight(b + ShiftLeft(p, width), width) == p
  {
    if width > 0 {
      assert Pow2(width) == 2 * Pow2(width - 1) && ShiftLeft(p, width) == 2 * ShiftLeft(p, width - 1);
      assert (b + ShiftLeft(p, width)) / 2 == b / 2 + ShiftLeft(p, width - 1);
      UpperPart(b / 2, p, width - 1);
    }
  }

  lemma {:induction false} PackedDetermines(u: seq<Byte>, v: seq<Byte>, width: nat)
    requires |u| == |v| && Packed(u, width) == Packed(v, width)
    requires Fit(u, width) && Fit(v, width)
    ensures u == v
  {
    if u != [] {
      UpperPart(u[0], Packed(u[1..], width), width);
      UpperPart(v[0], Packed(v[1..], width), width);
      PackedDetermines(u[1..], v[1..], width);
      assert u == [u[0]] + u[1..] && v == [v[0]] + v[1..];
    }
  }

  lemma {:induction false} ShiftLeftBound(x: nat, k: nat, n: nat)
    requires x < Pow2(n)
    ensures ShiftLeft(x, k) <= Pow2(n + k) - Pow2(k)
  {
    if k > 0 {
      ShiftLeftBound(x, k - 1, n);
      assert Pow2(n + k) == 2 * Pow2(n + k - 1) && Pow2(k) == 2 * Pow2(k - 1);
    }
  }

  lemma {:induction false} PackedBound(u: seq<Byte>, width: nat)
    requires Fit(u, width)
    ensures Packed(u, width) < Pow2(Width(u, width))
  {
    if u != [] {
      PackedBound(u[1..], width);
      ShiftLeftBound(Packed(u[1..], width), width, Width(u[1..], width));
    }
  }

  /** Steps take the lower bits of a number and move the others down. */
  lemma LowerBits(x: nat, b: nat, w: nat, n: nat)
    requires b < Pow2(n)
    ensures Steps(Xor(x, b + ShiftLeft(w, n)), n) == Xor(Steps(Xor(x, b), n), w)
  {
    XorDisjoint(b, w, n);
    XorAssoc(x, b, ShiftLeft(w, n));
    StepsXor(Xor(x, b), ShiftLeft(w, n), n);
    StepsShift(w, n);
  }

  /** A few bytes are taken as their word at once. */
  lemma {:induction false} TakesPacked(crc: nat, u: seq<Byte>, width: nat)
    requires Fit(u, width)
    ensures Take(crc, u, width) == Steps(Xor(crc, Packed(u, width)), Width(u, width))
    decreases |u|
  {
    if u == [] {
      assert Xor(crc, 0) == crc;
    } else {
      TakesPacked(Steps(Xor(crc, u[0]), width), u[1..], width);
      LowerBits(crc, u[0], Packed(u[1..], width), width);
      StepsAdd(Xor(crc, Packed(u, width)), width, Width(u[1..], width), Width(u, width));
    }
  }

  lemma {:induction false} TakeInjective(x: nat, y: nat, buf: seq<Byte>, width: nat)
    requires Word(x) && Word(y) && Take(x, buf, width) == Take(y, buf, width)
    ensures x == y
    decreases |buf|
  {
    if buf != [] {
      XorWord32(x, buf[0]);
      XorWord32(y, buf[0]);
      StepsWord(Xor(x, buf[0]), width);
      StepsWord(Xor(y, buf[0]), width);
      TakeInjective(Steps(Xor(x, buf[0]), width), Steps(Xor(y, buf[0]), width), buf[1..], width);
      StepsInjective(Xor(x, buf[0]), Xor(y, buf[0]), width);
      XorComm(x, buf[0]);
      XorComm(y, buf[0]);
      XorCancel(buf[0], x, y);
    }
  }

  lemma {:induction false} TakeWord(crc: nat, buf: seq<Byte>, width: nat)
    requires Word(crc)
    ensures Word(Take(crc, buf, width))
    decreases |buf|
  {
    if buf != [] {
      XorWord32(crc, buf[0]);
      StepsWord(Xor(crc, buf[0]), width);
      TakeWord(Steps(Xor(crc, buf[0]), width), buf[1..], width);
    }
  }

  /** Few enough bytes, taken from the same word to the same word, are the same. */
  lemma TakenApart(start: nat, u: seq<Byte>, v: seq<Byte>, width: nat)
    requires Word(start) && |u| == |v| && Take(start, u, width) == Take(start, v, width)
    requires Fit(u, width) && Fit(v, width) && Width(u, width) <= 32
    ensures u == v
  {
    SameWidth(u, v, width);
    TakesPacked(start, u, width);
    TakesPacked(start, v, width);
    PackedFits(u, width);
    PackedFits(v, width);
    XorWord32(start, Packed(u, width));
    XorWord32(start, Packed(v, width));
    StepsInjective(Xor(start, Packed(u, width)), Xor(start, Packed(v, width)), Width(u, width));
    XorCancel(start, Packed(u, width), Packed(v, width));
    PackedDetermines(u, v, width);
  }

  lemma {:induction false} SameWidth(u: seq<Byte>, v: seq<Byte>, width: nat)
    requires |u| == |v|
    ensures Width(u, width) == Width(v, width)
  {
    if u != [] {
      SameWidth(u[1..], v[1..], width);
    }
  }

  lemma PackedFits(u: seq<Byte>, width: nat)
    requires Fit(u, width) && Width(u, width) <= 32
    ensures Word(Packed(u, width))
  {
    PackedBound(u, width);
    WordSize();
    Pow2Monotone(Width(u, width), 32);
  }

  lemma {:induction false} Pow2Monotone(a: nat, b: nat)
    requires a <= b
    ensures Pow2(a) <= Pow2(b)
  {
    if a < b {
      Pow2Monotone(a, b - 1);
    }
  }

  lemma CrcParts(a: seq<Byte>, b: seq<Byte>, c: seq<Byte>)
    ensures GptCrc(a + b + c) == Xor(Take(Take(Take(ONES, a, 8), b, 8), c, 8), ONES)
  {
    FeedsAreSteps(ONES, a + b + c);
    TakeConcat(ONES, a + b, c, 8);
    TakeConcat(ONES, a, b, 8);
  }

  lemma FourBytes(u: seq<Byte>)
    requires |u| <= 4
    ensures Width(u, 8) <= 32
  {
    if u != [] {
      var v := u[1..];
      assert v != [] ==> Width(v, 8) == 8 + Width(v[1..], 8);
      assert |v| > 1 ==> Width(v[1..], 8) == 8 + Width(v[1..][1..], 8);
      assert |v| > 2 ==> Width(v[1..][1..], 8) == 8 + Width(v[1..][1..][1..], 8);
    }
  }

  /** Two buffers that differ within up to four consecutive bytes, in particular in one byte, never have
      the same CRC. */
  lemma BurstDetected(before: seq<Byte>, u: seq<Byte>, v: seq<Byte>, after: seq<Byte>)
    requires |u| == |v| <= 4 && GptCrc(before + u + after) == GptCrc(before + v + after)
    ensures u == v
  {
    var start := Take(ONES, before, 8);
    TakeWord(ONES, before, 8);
    TakeWord(start, u, 8);
    TakeWord(start, v, 8);
    CrcParts(before, u, after);
    CrcParts(before, v, after);
    var x, y := Take(Take(start, u, 8), after, 8), Take(Take(start, v, 8), after, 8);
    XorComm(x, ONES);
    XorComm(y, ONES);
    XorCancel(ONES, x, y);
    TakeInjective(Take(start, u, 8), Take(start, v, 8), after, 8);
    WordSize();
    FourBytes(u);
    TakenApart(start, u, v, 8);
  }
}
