/** What the modes of choices guarantee about the values of their symbols, and which values the
    `assignable` attribute offers. */
module KconfigChoices {
  import opened KconfigSyntax
  import opened KconfigValues
  import opened KconfigReads
  import opened KconfigOrder
  import opened KconfigEngine

  /* Choices */

  /** The conjuncts of an expression. */
  function AndParts(e: Expr): set<Expr> {
    if e.And? then AndParts(e.l) + AndParts(e.r) else {e}
  }

  lemma {:induction false} BoundedByPart(cfg: Config, u: User, b: nat, e: Expr, part: Expr)
    requires Ok(cfg, u) && ExprBelow(cfg, b, e) && part in AndParts(e)
    ensures ExprBelow(cfg, b, part) && ExprValue(cfg, u, b, e) <= ExprValue(cfg, u, b, part)
  {
    if e.And? {
      if part in AndParts(e.l) {
        BoundedByPart(cfg, u, b, e.l, part);
      } else {
        BoundedByPart(cfg, u, b, e.r, part);
      }
    }
  }

  /** The choice has type bool or tristate, and so have its symbols; the choice is propagated to the
      condition of every prompt of its symbols. */
  ghost predicate PropagatedTo(cfg: Config, c: nat)
    requires c < |cfg.choices|
  {
    && BoolTri(cfg.choices[c].kind)
    && forall s :: s in cfg.choices[c].syms && s < |cfg.syms| ==>
         && BoolTri(cfg.syms[s].kind)
         && forall k :: 0 <= k < |cfg.syms[s].prompts| ==>
              || Atom(Choice(c)) in AndParts(cfg.syms[s].prompts[k])
              || Atom(TriConst(0)) in AndParts(cfg.syms[s].prompts[k])
  }

  lemma {:induction false} PromptsBounded(cfg: Config, u: User, c: nat, b: nat, ps: seq<Expr>)
    requires Ok(cfg, u) && c < |cfg.choices| && cfg.choices[c].rank < b
    requires forall k :: 0 <= k < |ps| ==> ExprBelow(cfg, b, ps[k])
    requires forall k :: 0 <= k < |ps| ==> Atom(Choice(c)) in AndParts(ps[k]) || Atom(TriConst(0)) in AndParts(ps[k])
    ensures PromptMax(cfg, u, b, ps) <= ChoiceTri(cfg, u, c)
  {
    if ps != [] {
      var p := ps[|ps| - 1];
      PromptsBounded(cfg, u, c, b, ps[..|ps| - 1]);
      if Atom(Choice(c)) in AndParts(p) {
        BoundedByPart(cfg, u, b, p, Atom(Choice(c)));
      } else {
        BoundedByPart(cfg, u, b, p, Atom(TriConst(0)));
      }
    }
  }

  /** The mode of a choice is n, m or y, and symbols are visible accordingly: not at all, at most at
      m, or at y or not at all. */
  lemma VisibilityFollowsMode(cfg: Config, u: User, c: nat, s: nat)
    requires Ok(cfg, u) && c < |cfg.choices| && PropagatedTo(cfg, c) && s in cfg.choices[c].syms && s < |cfg.syms|
    ensures ChoiceTri(cfg, u, c) == 0 ==> SymVis(cfg, u, s) == 0
    ensures ChoiceTri(cfg, u, c) == 1 ==> SymVis(cfg, u, s) <= 1
    ensures ChoiceTri(cfg, u, c) == 2 ==> SymVis(cfg, u, s) != 1
  {
    ChoiceSym(cfg, c, s);
    assert SymOk(cfg, s);
    PromptsBounded(cfg, u, c, cfg.syms[s].rank, cfg.syms[s].prompts);
  }

  lemma {:induction false} FirstVisibleIs(cfg: Config, u: User, c: nat, k: nat)
    requires Ok(cfg, u) && c < |cfg.choices| && k <= |cfg.choices[c].syms|
    ensures var r := FirstVisible(cfg, u, c, k);
            && (r.Some? ==> r.value in cfg.choices[c].syms && r.value < |cfg.syms| && SymVis(cfg, u, r.value) != 0)
            && (r.None? ==> forall j {:trigger cfg.choices[c].syms[j]} ::
                  k <= j < |cfg.choices[c].syms| && cfg.choices[c].syms[j] < |cfg.syms| ==>
                  SymVis(cfg, u, cfg.choices[c].syms[j]) == 0)
    decreases |cfg.choices[c].syms| - k
  {
    if k < |cfg.choices[c].syms| {
      ChoiceSym(cfg, c, cfg.choices[c].syms[k]);
      FirstVisibleIs(cfg, u, c, k + 1);
    }
  }

  lemma {:induction false} DefaultPickIs(cfg: Config, u: User, c: nat, k: nat)
    requires Ok(cfg, u) && c < |cfg.choices| && k <= |cfg.choices[c].picks|
    ensures var r := DefaultPick(cfg, u, c, k);
            && (r.Some? ==> r.value in cfg.choices[c].syms && r.value < |cfg.syms| && SymVis(cfg, u, r.value) != 0)
            && (r.None? ==> forall s :: s in cfg.choices[c].syms && s < |cfg.syms| ==> SymVis(cfg, u, s) == 0)
    decreases |cfg.choices[c].picks| - k
  {
    if k == |cfg.choices[c].picks| {
      FirstVisibleIs(cfg, u, c, 0);
    } else {
      PickOk(cfg, c, k);
      ChoiceSym(cfg, c, cfg.choices[c].picks[k].sym);
      DefaultPickStep(cfg, u, c, k);
      DefaultPickIs(cfg, u, c, k + 1);
    }
  }

  /** The selection is a visible symbol of the choice, and in y mode there is one unless no symbol
      is visible. */
  lemma SelectionIs(cfg: Config, u: User, c: nat)
    requires Ok(cfg, u) && c < |cfg.choices|
    ensures var r := Selection(cfg, u, c);
            && (r.Some? ==>
                  && ChoiceTri(cfg, u, c) == 2
                  && r.value in cfg.choices[c].syms && r.value < |cfg.syms| && SymVis(cfg, u, r.value) != 0)
            && (r.None? && ChoiceTri(cfg, u, c) == 2 ==>
                  forall s :: s in cfg.choices[c].syms && s < |cfg.syms| ==> SymVis(cfg, u, s) == 0)
  {
    DefaultPickIs(cfg, u, c, 0);
    if c in u.pick {
      ChoiceSym(cfg, c, u.pick[c]);
    }
  }

  ghost predicate SomeVisible(cfg: Config, u: User, c: nat)
    requires Ok(cfg, u) && c < |cfg.choices|
  {
    exists s :: s in cfg.choices[c].syms && s < |cfg.syms| && SymVis(cfg, u, s) != 0
  }

  /** `y` is at y and every other symbol of the choice is at n. */
  ghost predicate OnlyAt(cfg: Config, u: User, c: nat, y: nat)
    requires Ok(cfg, u) && c < |cfg.choices|
  {
    && y in cfg.choices[c].syms && y < |cfg.syms| && SymTri(cfg, u, y).val == 2
    && forall s :: s in cfg.choices[c].syms && s < |cfg.syms| && s != y ==> SymTri(cfg, u, s).val == 0
  }

  lemma ChoiceSymValue(cfg: Config, u: User, c: nat, s: nat)
    requires Ok(cfg, u) && c < |cfg.choices| && PropagatedTo(cfg, c) && s in cfg.choices[c].syms && s < |cfg.syms|
    ensures ChoiceTri(cfg, u, c) == 0 ==> SymTri(cfg, u, s).val == 0
    ensures ChoiceTri(cfg, u, c) == 1 ==> SymTri(cfg, u, s).val <= 1
    ensures ChoiceTri(cfg, u, c) == 2 ==> SymTri(cfg, u, s).val == if Selection(cfg, u, c) == Some(s) then 2 else 0
  {
    ChoiceSym(cfg, c, s);
    VisibilityFollowsMode(cfg, u, c, s);
    SelectionIs(cfg, u, c);
  }

  /** Exactly one symbol of a choice is at y, and the others are at n, just when the choice is in y
      mode and has a visible symbol. In m mode every symbol is at n or m, and otherwise all are at n. */
  lemma ChoiceExclusive(cfg: Config, u: User, c: nat)
    requires Ok(cfg, u) && c < |cfg.choices| && PropagatedTo(cfg, c)
    ensures ChoiceTri(cfg, u, c) == 2 && SomeVisible(cfg, u, c) <==> exists y :: OnlyAt(cfg, u, c, y)
    ensures ChoiceTri(cfg, u, c) == 1 ==>
              forall s :: s in cfg.choices[c].syms && s < |cfg.syms| ==> SymTri(cfg, u, s).val <= 1
    ensures ChoiceTri(cfg, u, c) != 1 && !(ChoiceTri(cfg, u, c) == 2 && SomeVisible(cfg, u, c)) ==>
              forall s :: s in cfg.choices[c].syms && s < |cfg.syms| ==> SymTri(cfg, u, s).val == 0
  {
    SelectionIs(cfg, u, c);
    forall s | s in cfg.choices[c].syms && s < |cfg.syms|
      ensures ChoiceTri(cfg, u, c) == 0 ==> SymTri(cfg, u, s).val == 0
      ensures ChoiceTri(cfg, u, c) == 1 ==> SymTri(cfg, u, s).val <= 1
      ensures ChoiceTri(cfg, u, c) == 2 ==> SymTri(cfg, u, s).val == if Selection(cfg, u, c) == Some(s) then 2 else 0
    {
      ChoiceSymValue(cfg, u, c, s);
    }
    if ChoiceTri(cfg, u, c) == 2 && SomeVisible(cfg, u, c) {
      assert OnlyAt(cfg, u, c, Selection(cfg, u, c).value);
    }
  }

  /* Assignable values */

  /** Assigning `v` is accepted and gives the symbol the value `v`. */
  ghost predicate Respected(cfg: Config, u: User, s: nat, v: Tri)
    requires Ok(cfg, u) && s < |cfg.syms|
  {
    var r := AssignSym(cfg, u, s, KconfigEngine.Number(v));
    NextUserOk(cfg, u, SetSym(s, KconfigEngine.Number(v)));
    r.accepted && SymTri(cfg, r.user, s).val == v
  }

  /** Assigning to a symbol changes nothing that its own value rests on, except a choice's pick. */
  lemma AssignmentUnaffected(cfg: Config, u: User, u': User, s: nat, q: Slot)
    requires Ok(cfg, u) && Ok(cfg, u') && s < |cfg.syms| && SlotOk(cfg, q)
    requires Measure(cfg, q) < Measure(cfg, STri(s))
    requires cfg.syms[s].choice.None? || q == SVis(s) || q == CTri(cfg.syms[s].choice.value)
    requires forall k: nat :: k != s ==> SameAt(u.tri, u'.tri, k)
    requires forall k: nat :: k != s ==> SameAt(u.text, u'.text, k)
    requires u'.mode == u.mode
    requires cfg.syms[s].choice.None? ==> u'.pick == u.pick
    requires forall c: nat :: Some(c) != cfg.syms[s].choice ==> SameAt(u.pick, u'.pick, c)
    ensures Fresh(cfg, u, q) == Fresh(cfg, u', q)
  {
    assert SymOk(cfg, s);
    forall r {:trigger SameInput(cfg, u, u', r)} | SlotOk(cfg, r) && Measure(cfg, r) <= Measure(cfg, q)
      ensures SameInput(cfg, u, u', r)
    {
    }
    Unaffected(cfg, u, u', q);
  }

  /** The symbol is locked to m by its visibility and a select while an imply promotes m to y. */
  predicate LockedAndImplied(cfg: Config, u: User, s: nat)
    requires Ok(cfg, u) && s < |cfg.syms|
  {
    var d := cfg.syms[s];
    assert SymOk(cfg, s);
    && SymVis(cfg, u, s) == 1
    && ExprValue(cfg, u, d.rank, d.revDep) == 1
    && ExprValue(cfg, u, d.rank, d.weakRevDep) == 2
  }

  /** Expressions over what comes before the symbol keep their values. */
  lemma AssignmentKeepsExpr(cfg: Config, u: User, s: nat, v: Tri, e: Expr)
    requires Ok(cfg, u) && s < |cfg.syms| && BoolTri(cfg.syms[s].kind) && cfg.syms[s].choice.None?
    requires ExprBelow(cfg, cfg.syms[s].rank, e)
    ensures var u' := AssignSym(cfg, u, s, KconfigEngine.Number(v)).user;
            && Ok(cfg, u')
            && ExprValue(cfg, u', cfg.syms[s].rank, e) == ExprValue(cfg, u, cfg.syms[s].rank, e)
  {
    var b, u' := cfg.syms[s].rank, AssignSym(cfg, u, s, KconfigEngine.Number(v)).user;
    NextUserOk(cfg, u, SetSym(s, KconfigEngine.Number(v)));
    forall r | r in ExprReads(cfg, u, b, e)
      ensures SlotOk(cfg, r) && Fresh(cfg, u, r) == Fresh(cfg, u', r)
    {
      ExprReadsItems(cfg, u, b, e, r);
      AssignmentUnaffected(cfg, u, u', s, r);
    }
    CongruentExpr(cfg, u, u', b, e);
  }

  /** What becomes of a visible symbol outside choices when `v` is assigned. */
  lemma AssignedValue(cfg: Config, u: User, s: nat, v: Tri)
    requires Ok(cfg, u) && s < |cfg.syms| && BoolTri(cfg.syms[s].kind) && cfg.syms[s].choice.None?
    requires SymVis(cfg, u, s) != 0 && Accepts(cfg, cfg.syms[s].kind, KconfigEngine.Number(v))
    ensures (NextUserOk(cfg, u, SetSym(s, KconfigEngine.Number(v))); assert SymOk(cfg, s);
             var d := cfg.syms[s];
             var raw := Max(ExprValue(cfg, u, d.rank, d.revDep), Min(v, SymVis(cfg, u, s)));
             var promoted := SymKind(cfg, u, s) == Bool || ExprValue(cfg, u, d.rank, d.weakRevDep) == 2;
             SymTri(cfg, AssignSym(cfg, u, s, KconfigEngine.Number(v)).user, s).val
             == if raw == 1 && promoted then 2 else raw)
  {
    var d := cfg.syms[s];
    var u' := AssignSym(cfg, u, s, KconfigEngine.Number(v)).user;
    assert SymOk(cfg, s);
    NextUserOk(cfg, u, SetSym(s, KconfigEngine.Number(v)));
    AssignmentUnaffected(cfg, u, u', s, SVis(s));
    AssignmentKeepsExpr(cfg, u, s, v, d.revDep);
    AssignmentKeepsExpr(cfg, u, s, v, d.weakRevDep);
    if d.kind == Tristate {
      AssignmentUnaffected(cfg, u, u', s, STri(cfg.modules));
    }
    assert SymKind(cfg, u', s) == SymKind(cfg, u, s);
    assert BaseTri(cfg, u', s) == TriRes(Min(v, SymVis(cfg, u, s)), true);
    assert SelectedTri(cfg, u', s).val == Max(ExprValue(cfg, u, d.rank, d.revDep), Min(v, SymVis(cfg, u, s)));
  }

  /** The assignable values of a visible symbol outside choices are exactly those that are respected
      when they are assigned, unless the symbol is locked to m while an imply promotes m to y: then m
      is offered although only y is respected. */
  lemma AssignableExact(cfg: Config, u: User, s: nat)
    requires Ok(cfg, u) && s < |cfg.syms| && BoolTri(cfg.syms[s].kind) && cfg.syms[s].choice.None?
    requires SymVis(cfg, u, s) != 0
    ensures (forall v: Tri :: v in SymAssignable(cfg, u, s) <==> Respected(cfg, u, s, v)) <==>
        !LockedAndImplied(cfg, u, s)
    ensures LockedAndImplied(cfg, u, s) ==>
        1 in SymAssignable(cfg, u, s) && !Respected(cfg, u, s, 1) && Respected(cfg, u, s, 2)
  {
    forall v: Tri
      ensures !LockedAndImplied(cfg, u, s) ==> (v in SymAssignable(cfg, u, s) <==> Respected(cfg, u, s, v))
    {
      if !LockedAndImplied(cfg, u, s) {
        AssignableRespected(cfg, u, s, v);
      }
    }
    if LockedAndImplied(cfg, u, s) {
      LockedRespected(cfg, u, s);
    }
  }

  lemma LockedRespected(cfg: Config, u: User, s: nat)
    requires Ok(cfg, u) && s < |cfg.syms| && BoolTri(cfg.syms[s].kind) && cfg.syms[s].choice.None?
    requires LockedAndImplied(cfg, u, s)
    ensures 1 in SymAssignable(cfg, u, s) && !Respected(cfg, u, s, 1) && Respected(cfg, u, s, 2)
  {
    assert SymOk(cfg, s);
    VisibleAtM(cfg, u, s);
    AssignedValue(cfg, u, s, 1);
    AssignedValue(cfg, u, s, 2);
  }

  lemma AssignableRespected(cfg: Config, u: User, s: nat, v: Tri)
    requires Ok(cfg, u) && s < |cfg.syms| && BoolTri(cfg.syms[s].kind) && cfg.syms[s].choice.None?
    requires SymVis(cfg, u, s) != 0 && !LockedAndImplied(cfg, u, s)
    ensures v in SymAssignable(cfg, u, s) <==> Respected(cfg, u, s, v)
  {
    assert SymOk(cfg, s);
    VisibleAtM(cfg, u, s);
    if Accepts(cfg, cfg.syms[s].kind, KconfigEngine.Number(v)) {
      AssignedValue(cfg, u, s, v);
    }
  }

  /** Only a symbol that is currently tristate has visibility m. */
  lemma VisibleAtM(cfg: Config, u: User, s: nat)
    requires Ok(cfg, u) && s < |cfg.syms|
    ensures SymVis(cfg, u, s) == 1 ==> SymKind(cfg, u, s) == Tristate && cfg.syms[s].kind == Tristate
  {
    assert SymOk(cfg, s);
  }

  /** Assigning to a symbol of a choice changes neither its visibility nor the mode of the choice. */
  lemma ChoiceAssignment(cfg: Config, u: User, s: nat, v: Tri)
    requires Ok(cfg, u) && s < |cfg.syms| && BoolTri(cfg.syms[s].kind) && cfg.syms[s].choice.Some?
    requires cfg.syms[s].choice.value < |cfg.choices|
    ensures var u' := AssignSym(cfg, u, s, KconfigEngine.Number(v)).user;
            && Ok(cfg, u') && SymVis(cfg, u', s) == SymVis(cfg, u, s)
            && ChoiceTri(cfg, u', cfg.syms[s].choice.value) == ChoiceTri(cfg, u, cfg.syms[s].choice.value)
  {
    var u' := AssignSym(cfg, u, s, KconfigEngine.Number(v)).user;
    assert SymOk(cfg, s);
    NextUserOk(cfg, u, SetSym(s, KconfigEngine.Number(v)));
    AssignmentUnaffected(cfg, u, u', s, SVis(s));
    AssignmentUnaffected(cfg, u, u', s, CTri(cfg.syms[s].choice.value));
  }

  /** Setting a visible symbol of a y-mode choice to y, the only value offered for it, selects it. */
  lemma PickRespected(cfg: Config, u: User, s: nat)
    requires Ok(cfg, u) && s < |cfg.syms| && BoolTri(cfg.syms[s].kind) && cfg.syms[s].choice.Some?
    requires cfg.syms[s].choice.value < |cfg.choices| && PropagatedTo(cfg, cfg.syms[s].choice.value)
    requires SymVis(cfg, u, s) == 2
    ensures SymAssignable(cfg, u, s) == [2] && Respected(cfg, u, s, 2)
  {
    assert SymOk(cfg, s);
    ChoiceAssignment(cfg, u, s, 2);
    VisibilityFollowsMode(cfg, u, cfg.syms[s].choice.value, s);
  }

  /** A visible symbol of an m-mode choice can be set to n or m, whatever selects or implies it. */
  lemma MModeRespected(cfg: Config, u: User, s: nat, v: Tri)
    requires Ok(cfg, u) && s < |cfg.syms| && BoolTri(cfg.syms[s].kind) && cfg.syms[s].choice.Some?
    requires cfg.syms[s].choice.value < |cfg.choices| && SymVis(cfg, u, s) == 1
    ensures Respected(cfg, u, s, v) <==> v != 2
  {
    assert SymOk(cfg, s);
    VisibleAtM(cfg, u, s);
    ChoiceAssignment(cfg, u, s, v);
  }

  /** But selects and implies count for what is offered, so these values are offered, and no others, just
      when nothing selects the symbol and nothing implies it to y. */
  lemma MModeAssignableExact(cfg: Config, u: User, s: nat)
    requires Ok(cfg, u) && s < |cfg.syms| && BoolTri(cfg.syms[s].kind) && cfg.syms[s].choice.Some?
    requires cfg.syms[s].choice.value < |cfg.choices| && SymVis(cfg, u, s) == 1
    ensures (assert SymOk(cfg, s);
             var d := cfg.syms[s];
             (forall v: Tri :: v in SymAssignable(cfg, u, s) <==> Respected(cfg, u, s, v))
             <==> ExprValue(cfg, u, d.rank, d.revDep) == 0 && ExprValue(cfg, u, d.rank, d.weakRevDep) != 2)
  {
    assert SymOk(cfg, s);
    forall v: Tri
      ensures Respected(cfg, u, s, v) <==> v != 2
    {
      MModeRespected(cfg, u, s, v);
    }
    OnlyNorM(SymAssignable(cfg, u, s));
  }

  lemma OnlyNorM(offered: seq<Tri>)
    requires offered in {[0, 1], [0, 2], [1], [2]}
    ensures (forall v: Tri :: v in offered <==> v != 2) <==> offered == [0, 1]
  {
    var n: Tri, m: Tri := 0, 1;
    if offered == [0, 1] {
      assert n == offered[0] && m == offered[1];
      assert forall v: Tri :: v in offered <==> v == n || v == m;
    } else {
      assert n !in offered || m !in offered;
    }
  }

  /** What is offered for any symbol that is visible at m: the selecting value alone, or if nothing selects it
      n and m, with y in place of m if the symbol is implied to y. */
  lemma OfferedAtM(cfg: Config, u: User, s: nat, v: Tri)
    requires Ok(cfg, u) && s < |cfg.syms| && BoolTri(cfg.syms[s].kind) && SymVis(cfg, u, s) == 1
    ensures (assert SymOk(cfg, s);
             var rev := ExprValue(cfg, u, cfg.syms[s].rank, cfg.syms[s].revDep);
             var weak := ExprValue(cfg, u, cfg.syms[s].rank, cfg.syms[s].weakRevDep);
             v in SymAssignable(cfg, u, s) <==>
               if rev != 0 then v == rev else v == 0 || (v == 2 && weak == 2) || (v == 1 && weak != 2))
  {
    assert SymOk(cfg, s);
  }

  /** The values offered are in increasing order, and there are none for an invisible symbol. */
  lemma AssignableOrdered(cfg: Config, u: User, s: nat)
    requires Ok(cfg, u) && s < |cfg.syms|
    ensures forall i, j :: 0 <= i < j < |SymAssignable(cfg, u, s)| ==>
              SymAssignable(cfg, u, s)[i] < SymAssignable(cfg, u, s)[j]
    ensures SymAssignable(cfg, u, s) == [] <==> !BoolTri(cfg.syms[s].kind) || SymVis(cfg, u, s) == 0
  {
    assert SymOk(cfg, s);
  }

  /** Setting the mode of the choice to `v` is accepted and gives it the mode `v`. */
  ghost predicate ModeRespected(cfg: Config, u: User, c: nat, v: Tri)
    requires Ok(cfg, u) && c < |cfg.choices|
  {
    var r := AssignChoice(cfg, u, c, KconfigEngine.Number(v));
    NextUserOk(cfg, u, SetChoice(c, KconfigEngine.Number(v)));
    r.accepted && ChoiceTri(cfg, r.user, c) == v
  }

  /** Setting the mode of a choice does not change its visibility, nor whether modules are on. */
  lemma ModeUnaffected(cfg: Config, u: User, c: nat, v: Tri)
    requires Ok(cfg, u) && c < |cfg.choices| && BoolTri(cfg.choices[c].kind)
    ensures var u' := AssignChoice(cfg, u, c, KconfigEngine.Number(v)).user;
            && Ok(cfg, u') && ChoiceVis(cfg, u', c) == ChoiceVis(cfg, u, c)
            && (cfg.choices[c].kind == Tristate ==>
                  SymTri(cfg, u', cfg.modules).val == SymTri(cfg, u, cfg.modules).val)
  {
    var u' := AssignChoice(cfg, u, c, KconfigEngine.Number(v)).user;
    assert ChoiceOk(cfg, c);
    NextUserOk(cfg, u, SetChoice(c, KconfigEngine.Number(v)));
    ModeKeeps(cfg, u, u', c, CVis(c));
    if cfg.choices[c].kind == Tristate {
      ModeKeeps(cfg, u, u', c, STri(cfg.modules));
    }
  }

  lemma ModeKeeps(cfg: Config, u: User, u': User, c: nat, q: Slot)
    requires Ok(cfg, u) && Ok(cfg, u') && c < |cfg.choices| && SlotOk(cfg, q)
    requires Measure(cfg, q) < Measure(cfg, CTri(c))
    requires u'.tri == u.tri && u'.text == u.text && u'.pick == u.pick
    requires forall k: nat :: k != c ==> SameAt(u.mode, u'.mode, k)
    ensures Fresh(cfg, u, q) == Fresh(cfg, u', q)
  {
    forall r {:trigger SameInput(cfg, u, u', r)} | SlotOk(cfg, r) && Measure(cfg, r) <= Measure(cfg, q)
      ensures SameInput(cfg, u, u', r)
    {
    }
    Unaffected(cfg, u, u', q);
  }

  /** The modes offered for a visible choice are exactly those that are respected when they are set. */
  lemma ModesAssignableExact(cfg: Config, u: User, c: nat)
    requires Ok(cfg, u) && c < |cfg.choices| && BoolTri(cfg.choices[c].kind) && ChoiceVis(cfg, u, c) != 0
    ensures forall v: Tri :: v in ChoiceAssignable(cfg, u, c) <==> ModeRespected(cfg, u, c, v)
  {
    forall v: Tri
      ensures v in ChoiceAssignable(cfg, u, c) <==> ModeRespected(cfg, u, c, v)
    {
      ModeUnaffected(cfg, u, c, v);
      AssignedMode(cfg, u, c, v);
    }
  }

  /** What becomes of a visible choice when the mode `v` is set. */
  lemma AssignedMode(cfg: Config, u: User, c: nat, v: Tri)
    requires Ok(cfg, u) && c < |cfg.choices| && BoolTri(cfg.choices[c].kind) && ChoiceVis(cfg, u, c) != 0
    ensures ModeRespected(cfg, u, c, v) <==>
        && (v == 0 ==> cfg.choices[c].optional)
        && (v == 1 ==> ChoiceKind(cfg, u, c) == Tristate)
        && (v == 2 ==> ChoiceVis(cfg, u, c) == 2)
  {
    ModeUnaffected(cfg, u, c, v);
    var u' := AssignChoice(cfg, u, c, KconfigEngine.Number(v)).user;
    assert ChoiceKind(cfg, u', c) == ChoiceKind(cfg, u, c);
    assert ChoiceVis(cfg, u, c) == 1 ==> ChoiceKind(cfg, u, c) == Tristate;
    if Accepts(cfg, cfg.choices[c].kind, KconfigEngine.Number(v)) {
      var low: Tri := if cfg.choices[c].optional then 0 else 1;
      assert u' == u.(mode := u.mode[c := v]) && c in u'.mode && u'.mode[c] == v;
      assert RawMode(cfg, u', c) == Min(Max(low, v), ChoiceVis(cfg, u, c));
    }
  }

  lemma ModesAssignableOrdered(cfg: Config, u: User, c: nat)
    requires Ok(cfg, u) && c < |cfg.choices|
    ensures forall i, j :: 0 <= i < j < |ChoiceAssignable(cfg, u, c)| ==>
              ChoiceAssignable(cfg, u, c)[i] < ChoiceAssignable(cfg, u, c)[j]
    ensures ChoiceAssignable(cfg, u, c) == [] <==> ChoiceVis(cfg, u, c) == 0
  {
  }
}
