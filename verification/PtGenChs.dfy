/** Cylinders, heads and sectors: three bytes in which a sector number is packed. */
module PtGenChs {
  import opened Bitwise

  datatype Chs = Chs(b0: Byte, b1: Byte, b2: Byte)

  /** A byte keeps the lower 8 bits of what is assigned to it. */
  function ToByte(x: nat): Byte { x % 256 }

  function Quotient(x: nat, d: nat): nat
    requires d > 0
  {
    x / d
  }

  function Remainder(x: nat, d: nat): (r: nat)
    requires d > 0
    ensures r < d
  {
    x % d
  }

  function ToChs(sect: nat, heads: nat, sectors: nat): Chs
    requires heads > 0 && sectors > 0
  {
    var s := Remainder(sect, sectors) + 1;
    var h := Remainder(Quotient(sect, sectors), heads);
    var c := Quotient(Quotient(sect, sectors), heads);
    Chs(ToByte(h), ToByte(Or(s, And(ShiftRight(c, 2), 0xC0))), ToByte(And(c, 0xFF)))
  }

  /** How a reader takes the bytes apart. */
  function FromChs(chs: Chs, heads: nat, sectors: nat): int {
    var s, c := chs.b1 % 64, chs.b2 + 256 * (chs.b1 / 64);
    (c * heads + chs.b0) * sectors + s - 1
  }

  lemma {:induction false} AndShift(x: nat, m: nat, k: nat)
    ensures And(x, ShiftLeft(m, k)) == ShiftLeft(And(ShiftRight(x, k), m), k)
  {
    if k > 0 {
      assert ShiftLeft(m, k) == 2 * ShiftLeft(m, k - 1);
      AndShift(x / 2, m, k - 1);
    }
  }

  lemma AndThree(y: nat)
    ensures And(y, 3) == y % 4
  {
    assert And(y / 2, 1) == (y / 2) % 2 by {
      assert And(y / 2 / 2, 0) == 0;
    }
  }

  /** Bits 8 and 9 of the cylinder, moved to bits 6 and 7. */
  lemma CylinderTop(c: nat)
    ensures And(ShiftRight(c, 2), 0xC0) == ShiftLeft((c / 256) % 4, 6) == 64 * ((c / 256) % 4)
  {
    SixtyFour(3);
    AndShift(ShiftRight(c, 2), 3, 6);
    assert ShiftRight(ShiftRight(c, 2), 6) == c / 256 by {
      assert ShiftRight(c, 2) == ShiftRight(c / 2, 1) && ShiftRight(c / 2, 1) == ShiftRight(c / 2 / 2, 0);
      ShiftSix(c / 2 / 2);
    }
    AndThree(c / 256);
    SixtyFour((c / 256) % 4);
  }

  lemma SixtyFour(x: nat)
    ensures ShiftLeft(x, 6) == 64 * x
  {
    assert ShiftLeft(x, 6) == 4 * ShiftLeft(x, 4) && ShiftLeft(x, 4) == 4 * ShiftLeft(x, 2);
    assert ShiftLeft(x, 2) == 2 * ShiftLeft(x, 1) && ShiftLeft(x, 1) == 2 * ShiftLeft(x, 0);
  }

  lemma ShiftSix(x: nat)
    ensures ShiftRight(x, 6) == x / 64
  {
    assert ShiftRight(x, 6) == ShiftRight(x / 4, 4) && ShiftRight(x / 4, 4) == ShiftRight(x / 16, 2);
    assert ShiftRight(x / 16, 2) == ShiftRight(x / 32, 1) && ShiftRight(x / 32, 1) == ShiftRight(x / 64, 0);
  }

  lemma CylinderLow(c: nat)
    ensures And(c, 0xFF) == c % 256
  {
    assert Pow2(8) == 256;
    Split(c, 8);
    var w := ShiftRight(c, 8);
    assert ShiftLeft(w, 8) == 4 * ShiftLeft(w, 6);
    SixtyFour(w);
  }

  lemma TwoParts(s: nat, t: nat)
    requires s < 64 && t < 4
    ensures ToByte(s + 64 * t) % 64 == s && ToByte(s + 64 * t) / 64 == t
  {
  }

  lemma TenBits(c: nat)
    ensures c % 256 + 256 * ((c / 256) % 4) == c % 1024
  {
  }

  /** The second byte before it is cut to eight bits. */
  lemma ChsSecond(s: nat, c: nat)
    requires s < 64
    ensures Or(s, And(ShiftRight(c, 2), 0xC0)) == s + 64 * ((c / 256) % 4)
  {
    var t := (c / 256) % 4;
    CylinderTop(c);
    assert Pow2(6) == 64;
    XorDisjoint(s, t, 6);
    SixtyFour(t);
  }

  /** The second and third byte hold the sector and the lower 10 bits of the cylinder. */
  lemma ChsBytes(s: nat, c: nat)
    requires s < 64
    ensures var b1, b2 := ToByte(Or(s, And(ShiftRight(c, 2), 0xC0))), ToByte(And(c, 0xFF));
            b1 % 64 == s && b2 + 256 * (b1 / 64) == c % 1024
  {
    var t := (c / 256) % 4;
    ChsSecond(s, c);
    TwoParts(s, t);
    CylinderLow(c);
    TenBits(c);
  }

  /** A sector number is determined by its cylinder, head and sector. */
  lemma Recompose(sect: nat, heads: nat, sectors: nat)
    requires heads > 0 && sectors > 0
    ensures var q := Quotient(sect, sectors);
            sect == (Quotient(q, heads) * heads + Remainder(q, heads)) * sectors + Remainder(sect, sectors)
  {
    var q := Quotient(sect, sectors);
    assert q == Quotient(q, heads) * heads + Remainder(q, heads);
  }

  /** Sector numbers below 1024 cylinders have a cylinder number below 1024. */
  lemma CylinderBound(sect: nat, heads: nat, sectors: nat)
    requires heads > 0 && sectors > 0
    ensures Quotient(Quotient(sect, sectors), heads) < 1024 <==> sect < 1024 * heads * sectors
  {
    DivBelow(Quotient(sect, sectors), heads, 1024);
    DivBelow(sect, sectors, 1024 * heads);
  }

  lemma DivBelow(x: nat, d: nat, n: nat)
    requires d > 0
    ensures Quotient(x, d) < n <==> x < n * d
  {
    var q := Quotient(x, d);
    assert x == q * d + Remainder(x, d);
    if q < n {
      MulAtMost(q + 1, n, d);
    } else {
      MulAtMost(n, q, d);
    }
  }

  lemma MulAtMost(a: nat, b: nat, d: nat)
    requires a <= b
    ensures a * d <= b * d
  {
  }

  lemma MulLess(a: nat, b: nat, d: nat)
    requires a < b && d > 0
    ensures a * d < b * d
  {
    MulAtMost(a + 1, b, d);
    assert (a + 1) * d == a * d + d;
  }

  /** The reader's number is that of the same head and sector in the cylinder modulo 1024. */
  lemma ChsRead(sect: nat, heads: nat, sectors: nat)
    requires 1 <= heads <= 256 && 1 <= sectors <= 63
    ensures var q := Quotient(sect, sectors);
            FromChs(ToChs(sect, heads, sectors), heads, sectors)
            == (Quotient(q, heads) % 1024 * heads + Remainder(q, heads)) * sectors + Remainder(sect, sectors)
  {
    var s, h := Remainder(sect, sectors), Remainder(Quotient(sect, sectors), heads);
    var c := Quotient(Quotient(sect, sectors), heads);
    ChsBytes(s + 1, c);
    var chs := ToChs(sect, heads, sectors);
    assert chs.b0 == h && chs.b1 % 64 == s + 1 && chs.b2 + 256 * (chs.b1 / 64) == c % 1024;
  }

  /** Another cylinder gives another sector number. */
  lemma OtherCylinder(c: nat, h: nat, s: nat, heads: nat, sectors: nat)
    requires heads > 0 && sectors > 0
    ensures (c % 1024 * heads + h) * sectors + s == (c * heads + h) * sectors + s <==> c < 1024
  {
    if c >= 1024 {
      MulLess(c % 1024, c, heads);
      MulLess(c % 1024 * heads + h, c * heads + h, sectors);
    }
  }

  /** The three bytes can be undone just for the sectors of the first 1024 cylinders. */
  lemma ChsUndone(sect: nat, heads: nat, sectors: nat)
    requires 1 <= heads <= 256 && 1 <= sectors <= 63
    ensures FromChs(ToChs(sect, heads, sectors), heads, sectors) == sect <==> sect < 1024 * heads * sectors
  {
    var s, h := Remainder(sect, sectors), Remainder(Quotient(sect, sectors), heads);
    var c := Quotient(Quotient(sect, sectors), heads);
    var read := FromChs(ToChs(sect, heads, sectors), heads, sectors);
    assert read == (c % 1024 * heads + h) * sectors + s by {
      ChsRead(sect, heads, sectors);
    }
    assert sect == (c * heads + h) * sectors + s by {
      Recompose(sect, heads, sectors);
    }
    assert c < 1024 <==> sect < 1024 * heads * sectors by {
      CylinderBound(sect, heads, sectors);
    }
    assert read == sect <==> c < 1024 by {
      OtherCylinder(c, h, s, heads, sectors);
    }
  }
}
