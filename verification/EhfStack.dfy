/** The word of active priorities is a strictly ordered stack, and the mask follows its top. */
module EhfStack {
  import opened Bitwise
  import opened EhfModel

  datatype Move = Push(pri: Pri, run: Pri) | Pop(pri: Pri, run: Pri)

  function Apply(c: Config, pe: Pe, m: Move): Outcome
    requires ConfigOk(c)
  {
    match m
    case Push(pri, run) => Activate(c, pe, pri, run)
    case Pop(pri, run) => Deactivate(c, pe, pri, run)
  }

  /** The stack holds registered indices, and the mask is at least as strict as its top. */
  ghost predicate MaskOk(c: Config, pe: Pe)
    requires ConfigOk(c)
  {
    && (forall i :: 0 <= i < |Stack(pe.active)| ==> IdxOk(c, Stack(pe.active)[i]))
    && (pe.active != 0 ==> pe.pmr <= IdxToPri(c, Ctz(pe.active)))
  }

  lemma EmptyStack(x: nat)
    ensures x == 0 <==> Stack(x) == []
    ensures x > 0 ==> Stack(x)[0] == Ctz(x)
  {
    if x > 0 {
      TopIsCtz(x, 0);
    }
  }

  /** An accepted activation pushes its index, which lies above the top. */
  lemma ActivatePushes(c: Config, pe: Pe, pri: Pri, run: Pri)
    requires ConfigOk(c) && MaskOk(c, pe) && Aligned(c, pri) && Activate(c, pe, pri, run).Ok?
    ensures var next := Activate(c, pe, pri, run).next;
            && Stack(next.active) == [PriToIdx(c, pri)] + Stack(pe.active)
            && (Stack(pe.active) != [] ==> PriToIdx(c, pri) < Stack(pe.active)[0])
            && next.pmr == pri && MaskOk(c, next)
  {
    Pushes(pe.active, PriToIdx(c, pri), 0);
    EmptyStack(pe.active);
  }

  /** An accepted deactivation pops its index. */
  lemma DeactivatePops(c: Config, pe: Pe, pri: Pri, run: Pri)
    requires ConfigOk(c) && MaskOk(c, pe) && Aligned(c, pri) && Deactivate(c, pe, pri, run).Ok?
    ensures var next := Deactivate(c, pe, pri, run).next;
            && Stack(pe.active) == [PriToIdx(c, pri)] + Stack(next.active)
            && next.pmr == (if Stack(next.active) == [] then pe.init else pri)
            && MaskOk(c, next)
  {
    var next := Deactivate(c, pe, pri, run).next;
    EmptyStack(pe.active);
    EmptyStack(next.active);
    Pops(pe.active, 0);
    StackOrdered(pe.active);
    if next.active != 0 {
      assert Stack(next.active)[0] == Stack(pe.active)[1];
      InRange(c, pri, Ctz(next.active));
    }
  }

  /** The mask left behind by a nested deactivation is stricter than the new top. */
  lemma InRange(c: Config, pri: Pri, top: nat)
    requires ConfigOk(c) && Aligned(c, pri) && PriToIdx(c, pri) < top && IdxOk(c, top)
    ensures pri < IdxToPri(c, top)
  {
    ShiftLeftMonotone(PriToIdx(c, pri), top, 7 - c.priBits);
  }

  /* When activations and deactivations succeed */

  /** An activation succeeds just when its priority is above the running one, registered, above the top
      of the stack and above the mask. */
  lemma ActivateExact(c: Config, pe: Pe, pri: Pri, run: Pri)
    requires ConfigOk(c)
    ensures Activate(c, pe, pri, run).Ok? <==>
            && pri < run && IdxOk(c, PriToIdx(c, pri)) && pri < pe.pmr
            && (Stack(pe.active) == [] || PriToIdx(c, pri) < Stack(pe.active)[0])
  {
    EmptyStack(pe.active);
  }

  /** A deactivation of the top of the stack never fails the check of the mask. */
  lemma DeactivateExact(c: Config, pe: Pe, pri: Pri, run: Pri)
    requires ConfigOk(c) && MaskOk(c, pe) && Aligned(c, pri)
    ensures Deactivate(c, pe, pri, run).Ok? <==>
        pri < run && Stack(pe.active) != [] && Stack(pe.active)[0] == PriToIdx(c, pri)
  {
    EmptyStack(pe.active);
  }

  /** A nested deactivation does not restore the mask of the next priority: it leaves a stricter one. */
  lemma NestedMaskStricter(c: Config, pe: Pe, pri: Pri, run: Pri)
    requires ConfigOk(c) && MaskOk(c, pe) && Aligned(c, pri) && Deactivate(c, pe, pri, run).Ok?
    requires Deactivate(c, pe, pri, run).next.active != 0
    ensures var next := Deactivate(c, pe, pri, run).next;
            next.pmr == pri < IdxToPri(c, Ctz(next.active))
  {
    var next := Deactivate(c, pe, pri, run).next;
    DeactivatePops(c, pe, pri, run);
    EmptyStack(next.active);
    StackOrdered(pe.active);
    assert Stack(next.active)[0] == Stack(pe.active)[1];
    assert Stack(pe.active)[0] == PriToIdx(c, pri) && IdxOk(c, Stack(next.active)[0]);
    InRange(c, pri, Ctz(next.active));
  }

  /** So after a nested deactivation only priorities above the one just deactivated can be activated,
      although the stack would take others; activating the same priority again panics. */
  lemma AfterNested(c: Config, pe: Pe, pri: Pri, run: Pri, again: Pri, run': Pri)
    requires ConfigOk(c) && MaskOk(c, pe) && Aligned(c, pri) && Aligned(c, again) && Deactivate(c, pe, pri, run).Ok?
    requires Deactivate(c, pe, pri, run).next.active != 0
    ensures var next := Deactivate(c, pe, pri, run).next;
            && (Activate(c, next, again, run').Ok? <==> again < run' && IdxOk(c, PriToIdx(c, again)) && again < pri)
            && Activate(c, next, pri, run') == Panic
  {
    var next := Deactivate(c, pe, pri, run).next;
    DeactivatePops(c, pe, pri, run);
    ActivateExact(c, next, again, run');
    ActivateExact(c, next, pri, run');
    EmptyStack(next.active);
    StackOrdered(pe.active);
    assert Stack(next.active)[0] == Stack(pe.active)[1] && Stack(pe.active)[0] == PriToIdx(c, pri);
    if again < pri {
      IdxOrdered(c, again, pri);
    }
  }

  lemma IdxOrdered(c: Config, a: Pri, b: Pri)
    requires ConfigOk(c) && Aligned(c, a) && Aligned(c, b) && a < b
    ensures PriToIdx(c, a) <= PriToIdx(c, b)
  {
    assert a % 128 == a && b % 128 == b;
    ShiftRightMonotone(a, b, 7 - c.priBits);
  }

  /* Runs */

  function Run(c: Config, pe: Pe, moves: seq<Move>): Outcome
    requires ConfigOk(c)
    decreases |moves|
  {
    if moves == [] then Ok(pe)
    else
      match Apply(c, pe, moves[0])
      case Ok(next) => Run(c, next, moves[1..])
      case Panic => Panic
      case AssertFails => AssertFails
  }

  predicate AllAligned(c: Config, moves: seq<Move>)
    requires c.priBits <= 7
  {
    forall m :: m in moves ==> Aligned(c, m.pri)
  }

  /** The stack that a list of moves leaves behind, starting from `stack`. */
  function Replay(c: Config, moves: seq<Move>, stack: seq<nat>): seq<nat>
    requires ConfigOk(c)
    decreases |moves|
  {
    if moves == [] then stack
    else
      match moves[0]
      case Push(pri, _) => Replay(c, moves[1..], [PriToIdx(c, pri)] + stack)
      case Pop(_, _) => Replay(c, moves[1..], if stack == [] then [] else stack[1..])
  }

  /** The mask to return to: the one of before the first activation that is still outstanding. */
  function Resting(pe: Pe): Pri { if pe.active == 0 then pe.pmr else pe.init }

  /** In every run that does not fail, the word of active priorities is the stack of the activations
      that have not been deactivated, strictly ordered; the mask is never laxer than its top; and the
      mask to return to does not change, so it is back when no activation is left. */
  lemma {:induction false} RunRefines(c: Config, pe: Pe, moves: seq<Move>)
    requires ConfigOk(c) && MaskOk(c, pe) && AllAligned(c, moves) && Run(c, pe, moves).Ok?
    ensures var end := Run(c, pe, moves).next;
            && Stack(end.active) == Replay(c, moves, Stack(pe.active))
            && (forall j, k :: 0 <= j < k < |Stack(end.active)| ==> Stack(end.active)[j] < Stack(end.active)[k])
            && MaskOk(c, end)
            && Resting(end) == Resting(pe) && end.ns == pe.ns
            && (end.active == 0 ==> end.pmr == Resting(pe))
    decreases |moves|
  {
    if moves == [] {
      StackOrdered(pe.active);
    } else {
      var m := moves[0];
      var next := Apply(c, pe, m).next;
      EmptyStack(pe.active);
      EmptyStack(next.active);
      match m {
        case Push(pri, run) => ActivatePushes(c, pe, pri, run);
        case Pop(pri, run) => DeactivatePops(c, pe, pri, run);
      }
      RunRefines(c, next, moves[1..]);
    }
  }

  /** The word stays within its 32 bits. */
  lemma StaysInWord(c: Config, pe: Pe, m: Move)
    requires ConfigOk(c) && pe.active < Pow2(32) && Apply(c, pe, m).Ok?
    ensures Apply(c, pe, m).next.active < Pow2(32)
  {
    match m
    case Push(pri, _) => StaysWord(pe.active, PriToIdx(c, pri), 32);
    case Pop(_, _) => AndSmaller(pe.active, pe.active - 1);
  }
}
