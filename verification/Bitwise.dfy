/** Bitwise operations on a word, and the word as a stack of bit numbers with the lowest set bit on top. */
module Bitwise {

  type Byte = b: int | 0 <= b < 256

  function And(x: nat, y: nat): nat {
    if x == 0 || y == 0 then 0 else (if x % 2 == 1 && y % 2 == 1 then 1 else 0) + 2 * And(x / 2, y / 2)
  }

  function Or(x: nat, y: nat): nat {
    if x == 0 then y else if y == 0 then x
    else (if x % 2 == 1 || y % 2 == 1 then 1 else 0) + 2 * Or(x / 2, y / 2)
  }

  function ShiftRight(x: nat, k: nat): nat {
    if k == 0 then x else ShiftRight(x / 2, k - 1)
  }

  function ShiftLeft(x: nat, k: nat): nat {
    if k == 0 then x else 2 * ShiftLeft(x, k - 1)
  }

  function Xor(x: nat, y: nat): nat {
    if x == 0 then y else if y == 0 then x
    else (if (x % 2 == 1) != (y % 2 == 1) then 1 else 0) + 2 * Xor(x / 2, y / 2)
  }

  /** 1 shifted left by `k`. */
  function Pow2(k: nat): nat {
    if k == 0 then 1 else 2 * Pow2(k - 1)
  }

  /** The number of trailing zeros. */
  function Ctz(x: nat): nat
    requires x > 0
  {
    if x % 2 == 1 then 0 else 1 + Ctz(x / 2)
  }

  /** The numbers of the set bits, the lowest first; the lowest bit of `x` has number `base`. */
  function Bits(x: nat, base: nat): seq<nat> {
    if x == 0 then [] else (if x % 2 == 1 then [base] else []) + Bits(x / 2, base + 1)
  }

  function Stack(x: nat): seq<nat> { Bits(x, 0) }

  lemma {:induction false} AndSelf(x: nat)
    ensures And(x, x) == x
  {
    if x > 0 {
      AndSelf(x / 2);
    }
  }

  /** The lowest set bit is the top. */
  lemma {:induction false} TopIsCtz(x: nat, base: nat)
    requires x > 0
    ensures Bits(x, base) != [] && Bits(x, base)[0] == base + Ctz(x)
  {
    if x % 2 == 0 {
      TopIsCtz(x / 2, base + 1);
    }
  }

  /** `x & (x - 1)` pops the top. */
  lemma {:induction false} Pops(x: nat, base: nat)
    requires x > 0
    ensures Bits(x, base) != [] && Bits(And(x, x - 1), base) == Bits(x, base)[1..]
  {
    var h := x / 2;
    TopIsCtz(x, base);
    if x % 2 == 1 {
      AndSelf(h);
      assert (x - 1) / 2 == h;
    } else {
      Pops(h, base + 1);
      assert (x - 1) / 2 == h - 1 && (x - 1) % 2 == 1;
      assert And(x, x - 1) == 2 * And(h, h - 1);
      Doubled(And(h, h - 1), base);
    }
  }

  lemma Doubled(y: nat, base: nat)
    ensures Bits(2 * y, base) == Bits(y, base + 1)
  {
    assert (2 * y) / 2 == y;
  }

  /** Setting a bit below the lowest set bit pushes it. */
  lemma {:induction false} Pushes(x: nat, k: nat, base: nat)
    requires x == 0 || k < Ctz(x)
    ensures Bits(Or(x, Pow2(k)), base) == [base + k] + Bits(x, base)
    ensures Or(x, Pow2(k)) > 0 && Ctz(Or(x, Pow2(k))) == k
  {
    if k == 0 {
      assert x == 0 || Or(x, 1) == 1 + 2 * Or(x / 2, 0);
      assert x > 0 ==> (1 + 2 * (x / 2)) / 2 == x / 2;
      assert Bits(x, base) == Bits(x / 2, base + 1);
    } else {
      Pushes(x / 2, k - 1, base + 1);
      assert Or(x, Pow2(k)) == 2 * Or(x / 2, Pow2(k - 1)) by {
        assert Pow2(k) / 2 == Pow2(k - 1);
      }
      Doubled(Or(x / 2, Pow2(k - 1)), base);
    }
  }

  lemma {:induction false} BitsFrom(x: nat, base: nat)
    ensures forall j :: 0 <= j < |Bits(x, base)| ==> base <= Bits(x, base)[j]
    ensures forall j, k :: 0 <= j < k < |Bits(x, base)| ==> Bits(x, base)[j] < Bits(x, base)[k]
  {
    if x > 0 {
      BitsFrom(x / 2, base + 1);
    }
  }

  /** The stack increases strictly from its top. */
  lemma StackOrdered(x: nat)
    ensures forall j, k :: 0 <= j < k < |Stack(x)| ==> Stack(x)[j] < Stack(x)[k]
  {
    BitsFrom(x, 0);
  }

  /** A word of `n` bits stays one when a bit below `n` is set, and when its lowest bit is cleared. */
  lemma {:induction false} StaysWord(x: nat, k: nat, n: nat)
    requires x < Pow2(n) && k < n
    ensures Or(x, Pow2(k)) < Pow2(n)
  {
    assert Pow2(n) == 2 * Pow2(n - 1) && x / 2 < Pow2(n - 1);
    if k == 0 {
      assert x > 0 ==> Or(x, 1) == 1 + 2 * (x / 2);
    } else {
      assert Pow2(k) == 2 * Pow2(k - 1);
      StaysWord(x / 2, k - 1, n - 1);
      assert x > 0 ==> Or(x, Pow2(k)) <= 1 + 2 * Or(x / 2, Pow2(k - 1));
    }
  }

  lemma {:induction false} AndSmaller(x: nat, y: nat)
    ensures And(x, y) <= x
  {
    if x > 0 && y > 0 {
      AndSmaller(x / 2, y / 2);
    }
  }

  /* Shifts keep the order. */

  lemma {:induction false} ShiftRightMonotone(x: nat, y: nat, k: nat)
    requires x <= y
    ensures ShiftRight(x, k) <= ShiftRight(y, k)
  {
    if k > 0 {
      ShiftRightMonotone(x / 2, y / 2, k - 1);
    }
  }

  lemma {:induction false} ShiftLeftMonotone(x: nat, y: nat, k: nat)
    requires x < y
    ensures ShiftLeft(x, k) < ShiftLeft(y, k)
  {
    if k > 0 {
      ShiftLeftMonotone(x, y, k - 1);
    }
  }

  /* Exclusive or */

  lemma XorHalves(x: nat, y: nat)
    ensures Xor(x, y) / 2 == Xor(x / 2, y / 2)
    ensures Xor(x, y) % 2 == 1 <==> (x % 2 == 1) != (y % 2 == 1)
  {
    if x == 0 {
      assert Xor(0, y / 2) == y / 2;
    } else if y == 0 {
      assert Xor(x / 2, 0) == x / 2;
    }
  }

  lemma {:induction false} XorComm(x: nat, y: nat)
    ensures Xor(x, y) == Xor(y, x)
  {
    if x > 0 && y > 0 {
      XorComm(x / 2, y / 2);
    }
  }

  /** A number is determined by its lowest bit and the others. */
  lemma SameNumber(x: nat, y: nat)
    requires x / 2 == y / 2 && (x % 2 == 1 <==> y % 2 == 1)
    ensures x == y
  {
  }

  lemma {:induction false} XorAssoc(x: nat, y: nat, z: nat)
    ensures Xor(Xor(x, y), z) == Xor(x, Xor(y, z))
    decreases x + y + z
  {
    if x > 0 || y > 0 || z > 0 {
      XorAssoc(x / 2, y / 2, z / 2);
      XorHalves(x, y);
      XorHalves(y, z);
      XorHalves(Xor(x, y), z);
      XorHalves(x, Xor(y, z));
      SameNumber(Xor(Xor(x, y), z), Xor(x, Xor(y, z)));
    }
  }

  lemma {:induction false} XorSelf(x: nat)
    ensures Xor(x, x) == 0
  {
    if x > 0 {
      XorSelf(x / 2);
    }
  }

  lemma XorCancel(x: nat, y: nat, z: nat)
    requires Xor(x, y) == Xor(x, z)
    ensures y == z
  {
    XorAssoc(x, x, y);
    XorAssoc(x, x, z);
    XorSelf(x);
  }

  lemma {:induction false} XorWord(x: nat, y: nat, n: nat)
    requires x < Pow2(n) && y < Pow2(n)
    ensures Xor(x, y) < Pow2(n)
  {
    if x > 0 && y > 0 {
      assert Pow2(n) == 2 * Pow2(n - 1);
      XorWord(x / 2, y / 2, n - 1);
    }
  }

  /** Numbers without a common bit: one below 2^k, the other a multiple of it. */
  lemma {:induction false} XorDisjoint(x: nat, y: nat, k: nat)
    requires x < Pow2(k)
    ensures Xor(x, ShiftLeft(y, k)) == x + ShiftLeft(y, k)
    ensures Or(x, ShiftLeft(y, k)) == x + ShiftLeft(y, k)
  {
    if x > 0 {
      assert Pow2(k) == 2 * Pow2(k - 1);
      XorDisjoint(x / 2, y, k - 1);
      assert ShiftLeft(y, k) / 2 == ShiftLeft(y, k - 1) && ShiftLeft(y, k) % 2 == 0;
    }
  }

  lemma {:induction false} Pow2Positive(k: nat)
    ensures Pow2(k) > 0
  {
    if k > 0 {
      Pow2Positive(k - 1);
    }
  }

  /** The lower `k` bits of a number. */
  function Low(x: nat, k: nat): nat {
    Pow2Positive(k);
    And(x, Pow2(k) - 1)
  }

  /** A number is its lower `k` bits and the others. */
  lemma {:induction false} Split(x: nat, k: nat)
    ensures Low(x, k) < Pow2(k) && Low(x, k) + ShiftLeft(ShiftRight(x, k), k) == x
    ensures x < Pow2(k) ==> Low(x, k) == x && ShiftRight(x, k) == 0
  {
    if k == 0 {
    } else {
      Pow2Positive(k - 1);
      assert Pow2(k) == 2 * Pow2(k - 1) && (Pow2(k) - 1) / 2 == Pow2(k - 1) - 1 && (Pow2(k) - 1) % 2 == 1;
      Split(x / 2, k - 1);
      assert Low(x, k) == x % 2 + 2 * Low(x / 2, k - 1);
    }
  }
}
