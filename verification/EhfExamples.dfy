/** A run of activations after which a priority that is free on the stack is refused. */
module EhfExamples {
  import opened Bitwise
  import opened EhfModel
  import opened EhfStack

  /** The priorities 16 and 32 are registered, at the indices 1 and 2. */
  const TWO_PRIORITIES := Config(3, 8, {1, 2})

  const IDLE := Pe(0, 0, 0, 255)

  lemma Indices()
    ensures ConfigOk(TWO_PRIORITIES) && Aligned(TWO_PRIORITIES, 16) && Aligned(TWO_PRIORITIES, 32)
    ensures PriToIdx(TWO_PRIORITIES, 16) == 1 && PriToIdx(TWO_PRIORITIES, 32) == 2
    ensures IdxToPri(TWO_PRIORITIES, 2) == 32
  {
    assert ShiftRight(16, 4) == 1 && ShiftRight(32, 4) == 2;
    assert ShiftLeft(1, 4) == 16 && ShiftLeft(2, 4) == 32;
  }

  lemma Words()
    ensures Or(0, Pow2(2)) == 4 && Or(4, Pow2(1)) == 6 && And(6, 5) == 4 && Ctz(4) == 2 && Ctz(6) == 1
  {
    assert And(3, 2) == 2 && And(1, 1) == 1;
  }

  /** Priority 32 is activated, 16 within it and deactivated again: the mask stays at 16 although 32 is the
      only active priority, and activating 16 again panics. */
  lemma NestedMaskStays()
    ensures MaskOk(TWO_PRIORITIES, IDLE)
    ensures var one := Activate(TWO_PRIORITIES, IDLE, 32, 255);
            && one == Ok(Pe(4, 255, 0, 32))
            && var two := Activate(TWO_PRIORITIES, one.next, 16, 255);
               && two == Ok(Pe(6, 255, 0, 16))
               && var back := Deactivate(TWO_PRIORITIES, two.next, 16, 255);
                  && back == Ok(Pe(4, 255, 0, 16)) && IdxToPri(TWO_PRIORITIES, Ctz(back.next.active)) == 32
                  && Activate(TWO_PRIORITIES, back.next, 16, 255) == Panic
  {
    Indices();
    Words();
  }
}
