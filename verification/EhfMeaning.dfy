/** What the operations on exception priorities do in any state, and how they fail. */
module EhfMeaning {
  import opened Bitwise
  import opened EhfModel
  import opened EhfStack

  /* Words and indices */

  predicate BitSet(x: nat, k: nat) {
    if k == 0 then x % 2 == 1 else BitSet(x / 2, k - 1)
  }

  lemma {:induction false} BitsMeaning(x: nat, base: nat, b: nat)
    ensures b in Bits(x, base) <==> b >= base && BitSet(x, b - base)
    decreases x
  {
    if x > 0 {
      BitsMeaning(x / 2, base + 1, b);
      if b > base {
        assert BitSet(x, b - base) == BitSet(x / 2, b - base - 1);
      }
    } else if b >= base {
      NoBits(b - base);
    }
  }

  lemma {:induction false} NoBits(k: nat)
    ensures !BitSet(0, k)
  {
    if k > 0 {
      NoBits(k - 1);
    }
  }

  /** The stack holds the numbers of the bits that are set, the lowest first. */
  lemma StackMeaning(x: nat)
    ensures forall b: nat :: b in Stack(x) <==> BitSet(x, b)
    ensures forall i, j :: 0 <= i < j < |Stack(x)| ==> Stack(x)[i] < Stack(x)[j]
  {
    forall b: nat
      ensures b in Stack(x) <==> BitSet(x, b)
    {
      BitsMeaning(x, 0, b);
    }
    StackOrdered(x);
  }

  lemma {:induction false} ShiftRightDivides(x: nat, k: nat)
    ensures ShiftRight(x, k) * Pow2(k) <= x < (ShiftRight(x, k) + 1) * Pow2(k)
  {
    if k > 0 {
      ShiftRightDivides(x / 2, k - 1);
      var q, p := ShiftRight(x, k), Pow2(k - 1);
      assert ShiftRight(x / 2, k - 1) == q && Pow2(k) == 2 * p;
      Doubles(q, p);
      Doubles(q + 1, p);
    }
  }

  lemma Doubles(q: nat, p: nat)
    ensures q * (2 * p) == 2 * (q * p)
  {
  }

  /** The index of a priority is what its upper bits say, and the lowest priority with an index has zeros in
      the others. */
  lemma IndexMeaning(c: Config, pri: Pri, idx: nat)
    requires c.priBits <= 7
    ensures PriToIdx(c, pri) == idx <==> idx * Pow2(7 - c.priBits) <= pri % 128 < (idx + 1) * Pow2(7 - c.priBits)
    ensures IdxToPri(c, idx) == (idx * Pow2(7 - c.priBits)) % 128
  {
    var p := Pow2(7 - c.priBits);
    Pow2Positive(7 - c.priBits);
    ShiftRightDivides(pri % 128, 7 - c.priBits);
    ShiftLeftMultiplies(idx, 7 - c.priBits);
    OneQuotient(PriToIdx(c, pri), idx, p, pri % 128);
  }

  lemma OneQuotient(a: nat, b: nat, p: nat, x: nat)
    requires a * p <= x < (a + 1) * p
    ensures b * p <= x < (b + 1) * p <==> a == b
  {
    if a < b {
      AtMost(a + 1, b, p);
    } else if b < a {
      AtMost(b + 1, a, p);
    }
  }

  lemma AtMost(a: nat, b: nat, p: nat)
    requires a <= b
    ensures a * p <= b * p
  {
  }

  lemma {:induction false} ShiftLeftMultiplies(x: nat, k: nat)
    ensures ShiftLeft(x, k) == x * Pow2(k)
  {
    if k > 0 {
      ShiftLeftMultiplies(x, k - 1);
      Doubles(x, Pow2(k - 1));
    }
  }

  /* Activating and deactivating */

  predicate Registered(c: Config, pri: Pri)
    requires c.priBits <= 7
  {
    PriToIdx(c, pri) < c.num && PriToIdx(c, pri) in c.valid
  }

  /** The result of an activation: a priority that is not registered fails the assertion, unless it is not
      above the running one. Every other failure panics. On success the index is pushed and the mask is the
      priority; the first activation remembers the mask there was. */
  lemma ActivateMeaning(c: Config, pe: Pe, pri: Pri, run: Pri)
    requires ConfigOk(c)
    ensures var r, idx := Activate(c, pe, pri, run), PriToIdx(c, pri);
            && (r.AssertFails? <==> pri < run && !Registered(c, pri))
            && (r.Ok? <==>
                  && pri < run && Registered(c, pri) && pri < pe.pmr
                  && (Stack(pe.active) == [] || idx < Stack(pe.active)[0]))
            && (r.Ok? ==>
                  && Stack(r.next.active) == [idx] + Stack(pe.active) && r.next.pmr == pri && r.next.ns == pe.ns
                  && r.next.init == if Stack(pe.active) == [] then pe.pmr else pe.init)
  {
    EmptyStack(pe.active);
    if Activate(c, pe, pri, run).Ok? {
      Pushes(pe.active, PriToIdx(c, pri), 0);
    }
  }

  /** The result of a deactivation: on success the index is popped, and the mask is the remembered one if
      nothing is left, and the priority itself otherwise. */
  lemma DeactivateMeaning(c: Config, pe: Pe, pri: Pri, run: Pri)
    requires ConfigOk(c)
    ensures var r, idx := Deactivate(c, pe, pri, run), PriToIdx(c, pri);
            && (r.AssertFails? <==> pri < run && !Registered(c, pri))
            && (r.Ok? <==>
                  && pri < run && Registered(c, pri) && pe.pmr <= pri
                  && Stack(pe.active) != [] && Stack(pe.active)[0] == idx)
            && (r.Ok? ==>
                  && Stack(pe.active) == [idx] + Stack(r.next.active) && r.next.ns == pe.ns && r.next.init == pe.init
                  && r.next.pmr == if Stack(r.next.active) == [] then pe.init else pri)
  {
    EmptyStack(pe.active);
    if Deactivate(c, pe, pri, run).Ok? {
      Pops(pe.active, 0);
      EmptyStack(Deactivate(c, pe, pri, run).next.active);
    }
  }

  /* World switches */

  /** While a secure interrupt runs, or a priority is active, world switches leave everything as it is, and
      preemption is not allowed. */
  lemma SwitchesWait(pe: Pe, run: Pri)
    requires run < 0x80 || Stack(pe.active) != []
    ensures ExitedNormalWorld(pe, run) == Ok(pe) && EnteringNormalWorld(pe, run) == Ok(pe)
    ensures !IsNsPreemptionAllowed(pe, run)
  {
    EmptyStack(pe.active);
  }

  /** Otherwise leaving the normal world stashes its mask and lets no normal-world interrupt through, and
      entering it gives the mask back; the two undo each other. */
  lemma SwitchesUndo(pe: Pe, run: Pri, run': Pri)
    requires run >= 0x80 && run' >= 0x80 && Stack(pe.active) == [] && pe.ns == 0 && pe.pmr >= 0x80
    ensures var out := ExitedNormalWorld(pe, run);
            && out.Ok? && out.next == Pe(pe.active, pe.init, pe.pmr, 0x80)
            && EnteringNormalWorld(out.next, run') == Ok(pe)
            && !IsNsPreemptionAllowed(out.next, run)
            && AllowNsPreemption(out.next) == Ok(pe) && IsNsPreemptionAllowed(pe, run)
  {
    EmptyStack(pe.active);
  }

  /** The failures of world switches and grants with no activation outstanding. */
  lemma SwitchFailures(pe: Pe, run: Pri)
    requires run >= 0x80 && Stack(pe.active) == []
    ensures ExitedNormalWorld(pe, run).AssertFails? <==> pe.ns != 0
    ensures ExitedNormalWorld(pe, run).Panic? <==> pe.ns == 0 && pe.pmr < 0x80
    ensures EnteringNormalWorld(pe, run).Panic? <==> pe.ns != 0 && pe.pmr != 0x80 && pe.pmr != pe.ns
    ensures !EnteringNormalWorld(pe, run).AssertFails?
    ensures AllowNsPreemption(pe).AssertFails? <==> pe.ns == 0
  {
    EmptyStack(pe.active);
  }
}
