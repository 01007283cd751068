/** When loading a written configuration, full or minimal, gives every symbol and choice its value back. */
module KconfigRoundTrip {
  import opened KconfigSyntax
  import opened KconfigValues
  import opened KconfigReads
  import opened KconfigOrder
  import opened KconfigEngine
  import opened KconfigChoices
  import opened KconfigSaveLoad

  /* Direct dependencies */

  function OrParts(e: Expr): set<Expr> {
    if e.Or? then OrParts(e.l) + OrParts(e.r) else {e}
  }

  /** The dependency of some menu node is a part of the prompt's condition, or the condition is n. */
  predicate Entails(p: Expr, d: Expr) {
    || Atom(TriConst(0)) in AndParts(p)
    || exists dep :: dep in OrParts(d) && AndParts(dep) <= AndParts(p) + {Atom(TriConst(2))}
  }

  /** The dependency of every menu node is propagated to its prompt. */
  ghost predicate DepsPropagated(cfg: Config, s: nat)
    requires s < |cfg.syms|
  {
    forall k :: 0 <= k < |cfg.syms[s].prompts| ==> Entails(cfg.syms[s].prompts[k], cfg.syms[s].directDep)
  }

  /** What a symbol outside choices has for want of a user value: numbers are clamped into their range. */
  function OwnDefault(cfg: Config, u: User, s: nat): string
    requires Ok(cfg, u) && s < |cfg.syms|
  {
    var d := cfg.syms[s];
    assert SymOk(cfg, s);
    if IntHex(d.kind) then
      Clamped(cfg, d.kind, ActiveRange(cfg, u, d.rank, Base(d.kind), d.ranges, 0),
              DefaultStr(cfg, u, d.rank, d.defaults, 0))
    else StrDefault(cfg, u, s)
  }

  /** A symbol that is selected as far as it is visible, and whose value is not its default: the minimal
      configuration leaves it out as one that cannot be changed. */
  predicate LostValue(cfg: Config, u: User, s: nat)
    requires Ok(cfg, u) && s < |cfg.syms|
  {
    var d := cfg.syms[s];
    assert SymOk(cfg, s);
    && d.kind != Unknown && d.choice.None?
    && 0 < SymVis(cfg, u, s) <= ExprValue(cfg, u, d.rank, d.revDep)
    && SymStr(cfg, u, s).val != OwnDefault(cfg, u, s)
  }

  /** A symbol that is y by its defaults although it is visible at m only, and neither a select nor an
      imply makes it y: when y is loaded as its user value, it is limited to m. */
  predicate LimitedToM(cfg: Config, u: User, s: nat)
    requires Ok(cfg, u) && s < |cfg.syms|
  {
    var d := cfg.syms[s];
    assert SymOk(cfg, s);
    && d.choice.None? && SymVis(cfg, u, s) == 1 && SymTri(cfg, u, s).val == 2
    && ExprValue(cfg, u, d.rank, d.revDep) != 2 && ExprValue(cfg, u, d.rank, d.weakRevDep) != 2
  }

  /** The minimal configuration keeps what is needed. */
  ghost predicate MinimalOk(cfg: Config, u: User)
    requires Ok(cfg, u)
  {
    forall s :: 0 <= s < |cfg.syms| ==> DepsPropagated(cfg, s) && !LostValue(cfg, u, s)
  }

  ghost predicate NoneLimited(cfg: Config, u: User)
    requires Ok(cfg, u)
  {
    forall s :: 0 <= s < |cfg.syms| ==> !LimitedToM(cfg, u, s)
  }

  lemma {:induction false} AndPartsHold(cfg: Config, u: User, b: nat, e: Expr)
    requires Ok(cfg, u) && ExprBelow(cfg, b, e)
    requires forall part :: part in AndParts(e) && ExprBelow(cfg, b, part) ==> ExprValue(cfg, u, b, part) != 0
    ensures ExprValue(cfg, u, b, e) != 0
  {
    if e.And? {
      AndPartsHold(cfg, u, b, e.l);
      AndPartsHold(cfg, u, b, e.r);
    } else {
      assert e in AndParts(e);
    }
  }

  lemma {:induction false} OrPartHolds(cfg: Config, u: User, b: nat, e: Expr, part: Expr)
    requires Ok(cfg, u) && ExprBelow(cfg, b, e) && part in OrParts(e)
    ensures ExprBelow(cfg, b, part) && ExprValue(cfg, u, b, part) <= ExprValue(cfg, u, b, e)
  {
    if e.Or? {
      if part in OrParts(e.l) {
        OrPartHolds(cfg, u, b, e.l, part);
      } else {
        OrPartHolds(cfg, u, b, e.r, part);
      }
    }
  }

  lemma EntailedHolds(cfg: Config, u: User, b: nat, p: Expr, d: Expr)
    requires Ok(cfg, u) && ExprBelow(cfg, b, p) && ExprBelow(cfg, b, d)
    requires Entails(p, d) && ExprValue(cfg, u, b, p) != 0
    ensures ExprValue(cfg, u, b, d) != 0
  {
    if Atom(TriConst(0)) in AndParts(p) {
      BoundedByPart(cfg, u, b, p, Atom(TriConst(0)));
    } else {
      var dep :| dep in OrParts(d) && AndParts(dep) <= AndParts(p) + {Atom(TriConst(2))};
      OrPartHolds(cfg, u, b, d, dep);
      forall part | part in AndParts(dep) && ExprBelow(cfg, b, part)
        ensures ExprValue(cfg, u, b, part) != 0
      {
        if part != Atom(TriConst(2)) {
          BoundedByPart(cfg, u, b, p, part);
        }
      }
      AndPartsHold(cfg, u, b, dep);
    }
  }

  lemma {:induction false} SomePromptHolds(cfg: Config, u: User, b: nat, ps: seq<Expr>) returns (k: nat)
    requires Ok(cfg, u) && forall j :: 0 <= j < |ps| ==> ExprBelow(cfg, b, ps[j])
    requires PromptMax(cfg, u, b, ps) != 0
    ensures k < |ps| && ExprValue(cfg, u, b, ps[k]) != 0
  {
    k := |ps| - 1;
    if ExprValue(cfg, u, b, ps[k]) == 0 {
      k := SomePromptHolds(cfg, u, b, ps[..|ps| - 1]);
    }
  }

  /** A visible symbol has its direct dependencies met. */
  lemma VisibleMeetsDeps(cfg: Config, u: User, s: nat)
    requires Ok(cfg, u) && s < |cfg.syms| && DepsPropagated(cfg, s) && SymVis(cfg, u, s) != 0
    ensures SymOk(cfg, s) && ExprValue(cfg, u, cfg.syms[s].rank, cfg.syms[s].directDep) != 0
  {
    var d := cfg.syms[s];
    assert SymOk(cfg, s);
    var k := SomePromptHolds(cfg, u, d.rank, d.prompts);
    EntailedHolds(cfg, u, d.rank, d.prompts[k], d.directDep);
  }

  /* A symbol's own user value */

  /** The inputs differ at most in the user value of symbol `s`. */
  ghost predicate ExceptAt(u: User, u': User, s: nat) {
    && (forall k: nat :: k != s ==> SameAt(u.tri, u'.tri, k))
    && (forall k: nat :: k != s ==> SameAt(u.text, u'.text, k))
    && u'.mode == u.mode && u'.pick == u.pick
  }

  lemma SlotUnaffected(cfg: Config, u: User, u': User, s: nat, q: Slot)
    requires Ok(cfg, u) && Ok(cfg, u') && s < |cfg.syms| && ExceptAt(u, u', s)
    requires SlotOk(cfg, q) && Measure(cfg, q) < Measure(cfg, STri(s))
    ensures Fresh(cfg, u, q) == Fresh(cfg, u', q)
  {
    forall r {:trigger SameInput(cfg, u, u', r)} | SlotOk(cfg, r) && Measure(cfg, r) <= Measure(cfg, q)
      ensures SameInput(cfg, u, u', r)
    {
    }
    Unaffected(cfg, u, u', q);
  }

  lemma ExprUnaffected(cfg: Config, u: User, u': User, s: nat, e: Expr)
    requires Ok(cfg, u) && Ok(cfg, u') && s < |cfg.syms| && ExceptAt(u, u', s)
    requires ExprBelow(cfg, cfg.syms[s].rank, e)
    ensures ExprValue(cfg, u, cfg.syms[s].rank, e) == ExprValue(cfg, u', cfg.syms[s].rank, e)
  {
    var b := cfg.syms[s].rank;
    forall r | r in ExprReads(cfg, u, b, e)
      ensures SlotOk(cfg, r) && Fresh(cfg, u, r) == Fresh(cfg, u', r)
    {
      ExprReadsItems(cfg, u, b, e, r);
      SlotUnaffected(cfg, u, u', s, r);
    }
    CongruentExpr(cfg, u, u', b, e);
  }

  lemma DefaultsUnaffected(cfg: Config, u: User, u': User, s: nat)
    requires Ok(cfg, u) && Ok(cfg, u') && s < |cfg.syms| && ExceptAt(u, u', s) && SymOk(cfg, s)
    ensures DefaultTri(cfg, u, cfg.syms[s].rank, cfg.syms[s].defaults, 0)
            == DefaultTri(cfg, u', cfg.syms[s].rank, cfg.syms[s].defaults, 0)
    ensures !BoolTri(cfg.syms[s].kind) ==>
              DefaultStr(cfg, u, cfg.syms[s].rank, cfg.syms[s].defaults, 0)
              == DefaultStr(cfg, u', cfg.syms[s].rank, cfg.syms[s].defaults, 0)
  {
    var d := cfg.syms[s];
    forall r | r in DefaultTriReads(cfg, u, d.rank, d.defaults, 0)
      ensures SlotOk(cfg, r) && Fresh(cfg, u, r) == Fresh(cfg, u', r)
    {
      DefaultTriReadsItems(cfg, u, d.rank, d.defaults, 0, r);
      SlotUnaffected(cfg, u, u', s, r);
    }
    CongruentDefaultTri(cfg, u, u', d.rank, d.defaults, 0);
    if !BoolTri(d.kind) {
      forall r | r in DefaultStrReads(cfg, u, d.rank, d.defaults, 0)
        ensures SlotOk(cfg, r) && Fresh(cfg, u, r) == Fresh(cfg, u', r)
      {
        DefaultStrReadsItems(cfg, u, d.rank, d.defaults, 0, r);
        SlotUnaffected(cfg, u, u', s, r);
      }
      CongruentDefaultStr(cfg, u, u', d.rank, d.defaults, 0);
    }
  }

  lemma RangesUnaffected(cfg: Config, u: User, u': User, s: nat)
    requires Ok(cfg, u) && Ok(cfg, u') && s < |cfg.syms| && ExceptAt(u, u', s) && SymOk(cfg, s)
    ensures ActiveRange(cfg, u, cfg.syms[s].rank, Base(cfg.syms[s].kind), cfg.syms[s].ranges, 0)
            == ActiveRange(cfg, u', cfg.syms[s].rank, Base(cfg.syms[s].kind), cfg.syms[s].ranges, 0)
  {
    var d := cfg.syms[s];
    forall r | r in RangeReads(cfg, u, d.rank, d.ranges, 0)
      ensures SlotOk(cfg, r) && Fresh(cfg, u, r) == Fresh(cfg, u', r)
    {
      RangeReadsItems(cfg, u, d.rank, d.ranges, 0, r);
      SlotUnaffected(cfg, u, u', s, r);
    }
    CongruentRange(cfg, u, u', d.rank, Base(d.kind), d.ranges, 0);
  }

  /** What becomes of value `v` of a symbol: m is y if the symbol is bool or implied to y. */
  function Promoted(cfg: Config, u: User, s: nat, v: Tri): Tri
    requires Ok(cfg, u) && s < |cfg.syms|
  {
    assert SymOk(cfg, s);
    if v == 1 && (SymKind(cfg, u, s) == Bool || ExprValue(cfg, u, cfg.syms[s].rank, cfg.syms[s].weakRevDep) == 2)
    then 2 else v
  }

  /** The value of defaults and implies. */
  function UnsetTri(cfg: Config, u: User, s: nat): Tri
    requires Ok(cfg, u) && s < |cfg.syms|
  {
    var d := cfg.syms[s];
    assert SymOk(cfg, s);
    var weak := ExprValue(cfg, u, d.rank, d.weakRevDep);
    Max(if ExprValue(cfg, u, d.rank, d.directDep) != 0 then weak else 0, DefaultTri(cfg, u, d.rank, d.defaults, 0).val)
  }

  lemma KindUnaffected(cfg: Config, u: User, u': User, s: nat)
    requires Ok(cfg, u) && Ok(cfg, u') && s < |cfg.syms| && ExceptAt(u, u', s) && cfg.syms[s].choice.None?
    ensures SymKind(cfg, u', s) == SymKind(cfg, u, s)
  {
    assert SymOk(cfg, s);
    if cfg.syms[s].kind == Tristate {
      SlotUnaffected(cfg, u, u', s, STri(cfg.modules));
    }
  }

  /** What a bool or tristate symbol outside choices makes of its own user value. */
  lemma OwnTri(cfg: Config, u: User, u': User, s: nat)
    requires Ok(cfg, u) && Ok(cfg, u') && s < |cfg.syms| && ExceptAt(u, u', s)
    requires BoolTri(cfg.syms[s].kind) && cfg.syms[s].choice.None?
    ensures SymVis(cfg, u', s) == SymVis(cfg, u, s)
    ensures SymVis(cfg, u, s) == 0 ==> SymTri(cfg, u', s) == SymTri(cfg, u, s)
    ensures SymOk(cfg, s)
            && var rev := ExprValue(cfg, u, cfg.syms[s].rank, cfg.syms[s].revDep);
               var raw := if s in u'.tri then Min(u'.tri[s], SymVis(cfg, u, s)) else UnsetTri(cfg, u, s);
               SymVis(cfg, u, s) != 0 ==> SymTri(cfg, u', s) == TriRes(Promoted(cfg, u, s, Max(rev, raw)), true)
  {
    var d := cfg.syms[s];
    assert SymOk(cfg, s);
    SlotUnaffected(cfg, u, u', s, SVis(s));
    ExprUnaffected(cfg, u, u', s, d.revDep);
    ExprUnaffected(cfg, u, u', s, d.weakRevDep);
    ExprUnaffected(cfg, u, u', s, d.directDep);
    DefaultsUnaffected(cfg, u, u', s);
    KindUnaffected(cfg, u, u', s);
    if SymVis(cfg, u, s) == 0 {
      assert BaseTri(cfg, u', s) == BaseTri(cfg, u, s);
      assert SelectedTri(cfg, u', s) == SelectedTri(cfg, u, s);
    } else {
      var raw := if s in u'.tri then Min(u'.tri[s], SymVis(cfg, u, s)) else UnsetTri(cfg, u, s);
      assert BaseTri(cfg, u', s) == TriRes(raw, true);
      assert SelectedTri(cfg, u', s) == TriRes(Max(ExprValue(cfg, u, d.rank, d.revDep), raw), true);
    }
  }

  /** The text that `w` sets for the symbol is used when the symbol is visible: numbers have to be in range. */
  predicate TextUsed(cfg: Config, u: User, w: User, s: nat)
    requires Ok(cfg, u) && s < |cfg.syms|
  {
    var d := cfg.syms[s];
    assert SymOk(cfg, s);
    && s in w.text
    && (IntHex(d.kind) ==>
          && w.text[s] != ""
          && InRange(ActiveRange(cfg, u, d.rank, Base(d.kind), d.ranges, 0),
                     KconfigValues.Number(cfg, w.text[s], Base(d.kind))))
  }

  /** What a string, int or hex symbol makes of its own user value. */
  lemma OwnStr(cfg: Config, u: User, u': User, s: nat)
    requires Ok(cfg, u) && Ok(cfg, u') && s < |cfg.syms| && ExceptAt(u, u', s)
    requires !BoolTri(cfg.syms[s].kind) && cfg.syms[s].kind != Unknown
    ensures SymVis(cfg, u', s) == SymVis(cfg, u, s)
    ensures SymVis(cfg, u, s) == 0 ==> SymStr(cfg, u', s) == SymStr(cfg, u, s)
    ensures SymVis(cfg, u, s) != 0 ==>
              SymStr(cfg, u', s) == StrRes(if TextUsed(cfg, u, u', s) then u'.text[s] else OwnDefault(cfg, u, s), true)
  {
    assert SymOk(cfg, s);
    SlotUnaffected(cfg, u, u', s, SVis(s));
    DefaultsUnaffected(cfg, u, u', s);
    RangesUnaffected(cfg, u, u', s);
  }

  /** The default of the minimal configuration is the value that a visible symbol has without a user
      value. */
  lemma StrDefaultAgrees(cfg: Config, u: User, s: nat)
    requires Ok(cfg, u) && s < |cfg.syms| && DepsPropagated(cfg, s)
    requires cfg.syms[s].kind in {Bool, Tristate, Text} && cfg.syms[s].choice.None? && SymVis(cfg, u, s) != 0
    ensures Ok(cfg, ClearSym(u, s)) && StrDefault(cfg, u, s) == SymStr(cfg, ClearSym(u, s), s).val
  {
    var u' := ClearSym(u, s);
    assert SymOk(cfg, s);
    NextUserOk(cfg, u, UnsetSym(s));
    VisibleMeetsDeps(cfg, u, s);
    if BoolTri(cfg.syms[s].kind) {
      OwnTri(cfg, u, u', s);
      TriDefaultIs(cfg, u, s);
    } else {
      OwnStr(cfg, u, u', s);
    }
  }

  lemma TriDefaultIs(cfg: Config, u: User, s: nat)
    requires Ok(cfg, u) && s < |cfg.syms| && BoolTri(cfg.syms[s].kind) && cfg.syms[s].choice.None?
    requires SymOk(cfg, s) && ExprValue(cfg, u, cfg.syms[s].rank, cfg.syms[s].directDep) != 0
    ensures var rev := ExprValue(cfg, u, cfg.syms[s].rank, cfg.syms[s].revDep);
            StrDefault(cfg, u, s) == TriText(Promoted(cfg, u, s, Max(rev, UnsetTri(cfg, u, s))))
  {
  }

  /** An int or hex symbol has its default clamped, which is where the two differ. */
  lemma OwnDefaultAgrees(cfg: Config, u: User, s: nat)
    requires Ok(cfg, u) && s < |cfg.syms| && SymVis(cfg, u, s) != 0
    requires !BoolTri(cfg.syms[s].kind) && cfg.syms[s].kind != Unknown
    ensures Ok(cfg, ClearSym(u, s)) && OwnDefault(cfg, u, s) == SymStr(cfg, ClearSym(u, s), s).val
  {
    NextUserOk(cfg, u, UnsetSym(s));
    OwnStr(cfg, u, ClearSym(u, s), s);
  }

  /* Reproduction */

  /** The input with symbol `s` set as loading leaves it. */
  function WithOwn(u: User, u': User, s: nat): User {
    u.(tri := if s in u'.tri then u.tri[s := u'.tri[s]] else u.tri - {s},
       text := if s in u'.text then u.text[s := u'.text[s]] else u.text - {s})
  }

  lemma WithOwnExcept(cfg: Config, u: User, u': User, s: nat)
    requires Ok(cfg, u) && s < |cfg.syms|
    ensures var w := WithOwn(u, u', s);
            Ok(cfg, w) && ExceptAt(u, w, s) && SameAt(w.tri, u'.tri, s) && SameAt(w.text, u'.text, s)
  {
  }

  /** Its own value, or none if it has its default, gives a bool or tristate symbol its value back. */
  lemma OwnTriKept(cfg: Config, u: User, w: User, s: nat)
    requires Ok(cfg, u) && Ok(cfg, w) && s < |cfg.syms| && ExceptAt(u, w, s)
    requires BoolTri(cfg.syms[s].kind) && cfg.syms[s].choice.None?
    requires SymVis(cfg, u, s) != 0 ==>
               || (s in w.tri && w.tri[s] == SymTri(cfg, u, s).val && !LimitedToM(cfg, u, s))
               || (s !in w.tri && DepsPropagated(cfg, s) && TriText(SymTri(cfg, u, s).val) == StrDefault(cfg, u, s))
    ensures SymTri(cfg, w, s) == SymTri(cfg, u, s)
  {
    OwnTri(cfg, u, w, s);
    OwnTri(cfg, u, u, s);
    VisibleAtM(cfg, u, s);
    if SymVis(cfg, u, s) != 0 && s !in w.tri {
      VisibleMeetsDeps(cfg, u, s);
      TriDefaultIs(cfg, u, s);
    }
  }

  /** A symbol that is limited to m has its default, so that the minimal configuration leaves it out. */
  lemma LimitedIsDefault(cfg: Config, u: User, s: nat)
    requires Ok(cfg, u) && s < |cfg.syms| && LimitedToM(cfg, u, s) && DepsPropagated(cfg, s)
    requires BoolTri(cfg.syms[s].kind)
    ensures StrDefault(cfg, u, s) == "y"
  {
    OwnTri(cfg, u, u, s);
    VisibleAtM(cfg, u, s);
    VisibleMeetsDeps(cfg, u, s);
    TriDefaultIs(cfg, u, s);
  }

  lemma OwnTriReproduced(cfg: Config, u: User, min: bool, u': User, s: nat)
    requires Ok(cfg, u) && Restores(cfg, u, min, u') && s < |cfg.syms|
    requires BoolTri(cfg.syms[s].kind) && cfg.syms[s].choice.None?
    requires if min then DepsPropagated(cfg, s) && !LostValue(cfg, u, s) else !LimitedToM(cfg, u, s)
    ensures Ok(cfg, WithOwn(u, u', s)) && SymTri(cfg, WithOwn(u, u', s), s) == SymTri(cfg, u, s)
  {
    WithOwnExcept(cfg, u, u', s);
    WrittenIfVisible(cfg, u, s);
    if min && LimitedToM(cfg, u, s) {
      LimitedIsDefault(cfg, u, s);
    }
    OwnTriKept(cfg, u, WithOwn(u, u', s), s);
  }

  /** Every visible symbol is written. */
  lemma WrittenIfVisible(cfg: Config, u: User, s: nat)
    requires Ok(cfg, u) && s < |cfg.syms| && cfg.syms[s].kind != Unknown && cfg.syms[s].choice.None?
    ensures SymVis(cfg, u, s) != 0 ==> ConfigLine(cfg, u, s).Some?
  {
    if BoolTri(cfg.syms[s].kind) {
      OwnTri(cfg, u, u, s);
    } else {
      OwnStr(cfg, u, u, s);
    }
  }

  /** A number that was set and is in range is left out of the minimal configuration only if it is the
      default, which is then in range as well. */
  lemma DefaultInRange(cfg: Config, u: User, s: nat)
    requires Ok(cfg, u) && s < |cfg.syms| && IntHex(cfg.syms[s].kind)
    requires TextUsed(cfg, u, u, s) && u.text[s] == StrDefault(cfg, u, s)
    ensures OwnDefault(cfg, u, s) == u.text[s]
  {
  }

  lemma OwnStrReproduced(cfg: Config, u: User, min: bool, u': User, s: nat)
    requires Ok(cfg, u) && Restores(cfg, u, min, u') && s < |cfg.syms| && NumbersOk(cfg, u)
    requires !BoolTri(cfg.syms[s].kind) && cfg.syms[s].kind != Unknown
    requires cfg.syms[s].choice.None? && (min ==> !LostValue(cfg, u, s))
    ensures Ok(cfg, WithOwn(u, u', s)) && SymStr(cfg, WithOwn(u, u', s), s) == SymStr(cfg, u, s)
  {
    WithOwnExcept(cfg, u, u', s);
    WrittenIfVisible(cfg, u, s);
    OwnStr(cfg, u, WithOwn(u, u', s), s);
    OwnStr(cfg, u, u, s);
    if IntHex(cfg.syms[s].kind) && TextUsed(cfg, u, u, s) && u.text[s] == StrDefault(cfg, u, s) {
      DefaultInRange(cfg, u, s);
    }
  }

  /** The selection of a choice is found again: as the pick, or as the default. */
  lemma SelectionReproduced(cfg: Config, u: User, min: bool, u': User, c: nat)
    requires Ok(cfg, u) && Ok(cfg, u') && Plain(cfg) && Restores(cfg, u, min, u') && c < |cfg.choices|
    requires ChoiceTri(cfg, u', c) == ChoiceTri(cfg, u, c)
    requires DefaultPick(cfg, u', c, 0) == DefaultPick(cfg, u, c, 0)
    requires forall s :: s in cfg.choices[c].syms && s < |cfg.syms| ==> SymVis(cfg, u', s) == SymVis(cfg, u, s)
    ensures Selection(cfg, u', c) == Selection(cfg, u, c)
  {
    SelectionIs(cfg, u, c);
    SelectionIs(cfg, u', c);
    var sel := Selection(cfg, u, c);
    if c in u'.pick {
      ChoiceSym(cfg, c, u'.pick[c]);
      ChoiceSymValue(cfg, u, c, u'.pick[c]);
    }
    if sel.Some? {
      var y := sel.value;
      ChoiceSym(cfg, c, y);
      ChoiceSymValue(cfg, u, c, y);
      VisibilityFollowsMode(cfg, u, c, y);
      assert cfg.syms[y].kind == Bool;
      assert SymStr(cfg, u, y) == StrRes("y", true);
      assert StrDefault(cfg, u, y) == "n";
      if c !in u'.pick {
        assert !Saved(cfg, u, min, y);
        assert DefaultPick(cfg, u, c, 0) == Some(y);
      }
    }
  }

  /** The mode of a bool choice that is not optional is its visibility, whatever the user has set. */
  lemma PlainMode(cfg: Config, u: User, c: nat)
    requires Ok(cfg, u) && Plain(cfg) && c < |cfg.choices|
    ensures ChoiceTri(cfg, u, c) == ChoiceVis(cfg, u, c)
  {
    assert ChoiceKind(cfg, u, c) == Bool;
    assert ChoiceVis(cfg, u, c) != 1;
    assert RawMode(cfg, u, c) == 0 <==> ChoiceVis(cfg, u, c) == 0;
  }

  /** The values that are computed before position `n` are reproduced. */
  ghost predicate SameBefore(cfg: Config, u: User, u': User, n: nat)
    requires Ok(cfg, u) && Ok(cfg, u')
  {
    forall r {:trigger Fresh(cfg, u', r)} :: SlotOk(cfg, r) && Measure(cfg, r) < n ==>
        Fresh(cfg, u', r) == Fresh(cfg, u, r)
  }

  lemma PickReproduced(cfg: Config, u: User, min: bool, u': User, c: nat)
    requires Ok(cfg, u) && Ok(cfg, u') && Plain(cfg) && Restores(cfg, u, min, u') && c < |cfg.choices|
    requires SameBefore(cfg, u, u', Measure(cfg, CSel(c)))
    ensures Selection(cfg, u', c) == Selection(cfg, u, c)
  {
    assert Fresh(cfg, u', CTri(c)) == Fresh(cfg, u, CTri(c));
    forall s | s in cfg.choices[c].syms && s < |cfg.syms|
      ensures SymVis(cfg, u', s) == SymVis(cfg, u, s)
    {
      ChoiceSym(cfg, c, s);
      assert Fresh(cfg, u', SVis(s)) == Fresh(cfg, u, SVis(s));
    }
    forall r | r in DefaultPickReads(cfg, u, c, 0)
      ensures SlotOk(cfg, r) && Fresh(cfg, u, r) == Fresh(cfg, u', r)
    {
      PickReadsItems(cfg, u, c, 0, r);
    }
    CongruentDefaultPick(cfg, u, u', c, 0);
    SelectionReproduced(cfg, u, min, u', c);
  }

  lemma {:induction false} Reproduced(cfg: Config, u: User, min: bool, u': User, q: Slot)
    requires Ok(cfg, u) && Ok(cfg, u') && Plain(cfg) && Restores(cfg, u, min, u') && SlotOk(cfg, q)
    requires NumbersOk(cfg, u) && if min then MinimalOk(cfg, u) else NoneLimited(cfg, u)
    ensures Fresh(cfg, u', q) == Fresh(cfg, u, q)
    decreases Measure(cfg, q)
  {
    forall r {:trigger Fresh(cfg, u', r)} | SlotOk(cfg, r) && Measure(cfg, r) < Measure(cfg, q)
      ensures Fresh(cfg, u', r) == Fresh(cfg, u, r)
    {
      Reproduced(cfg, u, min, u', r);
    }
    match q
    case STri(_) => SymReproduced(cfg, u, min, u', q);
    case SStr(_) => SymReproduced(cfg, u, min, u', q);
    case CTri(c) =>
      assert Fresh(cfg, u', CVis(c)) == Fresh(cfg, u, CVis(c));
      PlainMode(cfg, u, c);
      PlainMode(cfg, u', c);
    case CSel(c) => PickReproduced(cfg, u, min, u', c);
    case _ =>
      forall r | r in Reads(cfg, u, q)
        ensures SlotOk(cfg, r) && Fresh(cfg, u, r) == Fresh(cfg, u', r)
      {
        ReadsDecrease(cfg, u, q, r);
      }
      Congruent(cfg, u, u', q);
  }

  /** A symbol's value is the same under two inputs that give it the same user value, if `w` differs
      from `u` only in that value and `u'` gives what is computed earlier the values of `u`. */
  lemma TriTransfers(cfg: Config, u: User, w: User, u': User, s: nat)
    requires Ok(cfg, u) && Ok(cfg, w) && Ok(cfg, u') && s < |cfg.syms|
    requires ExceptAt(u, w, s) && SameAt(w.tri, u'.tri, s)
    requires SameBefore(cfg, u, u', Measure(cfg, STri(s)))
    ensures SymTri(cfg, u', s) == SymTri(cfg, w, s)
  {
    forall r | r in SymTriReads(cfg, w, s)
      ensures SlotOk(cfg, r) && Fresh(cfg, w, r) == Fresh(cfg, u', r)
    {
      SymTriReadsDecrease(cfg, w, s, r);
      SlotUnaffected(cfg, u, w, s, r);
    }
    CongruentSymTri(cfg, w, u', s);
  }

  lemma TextReadsBefore(cfg: Config, u: User, s: nat, r: Slot)
    requires Ok(cfg, u) && s < |cfg.syms| && !BoolTri(cfg.syms[s].kind) && cfg.syms[s].kind != Unknown
    requires r in SymStrReads(cfg, u, s)
    ensures SlotOk(cfg, r) && Measure(cfg, r) < Measure(cfg, STri(s)) && Measure(cfg, r) < Measure(cfg, SStr(s))
  {
    var d := cfg.syms[s];
    assert SymOk(cfg, s);
    if r == SVis(s) {
    } else if IntHex(d.kind) && r in RangeReads(cfg, u, d.rank, d.ranges, 0) {
      RangeReadsItems(cfg, u, d.rank, d.ranges, 0, r);
    } else {
      DefaultStrReadsItems(cfg, u, d.rank, d.defaults, 0, r);
    }
  }

  lemma StrTransfers(cfg: Config, u: User, w: User, u': User, s: nat)
    requires Ok(cfg, u) && Ok(cfg, w) && Ok(cfg, u') && s < |cfg.syms|
    requires !BoolTri(cfg.syms[s].kind) && cfg.syms[s].kind != Unknown
    requires ExceptAt(u, w, s) && SameAt(w.text, u'.text, s)
    requires SameBefore(cfg, u, u', Measure(cfg, SStr(s)))
    ensures SymStr(cfg, u', s) == SymStr(cfg, w, s)
  {
    assert SymOk(cfg, s);
    forall r | r in SymStrReads(cfg, w, s)
      ensures SlotOk(cfg, r) && Fresh(cfg, w, r) == Fresh(cfg, u', r)
    {
      TextReadsBefore(cfg, w, s, r);
      SlotUnaffected(cfg, u, w, s, r);
    }
    CongruentSymStr(cfg, w, u', s);
  }

  lemma PlainTriReproduced(cfg: Config, u: User, min: bool, u': User, s: nat)
    requires Ok(cfg, u) && Ok(cfg, u') && Plain(cfg) && Restores(cfg, u, min, u') && s < |cfg.syms|
    requires BoolTri(cfg.syms[s].kind) && cfg.syms[s].choice.None?
    requires if min then DepsPropagated(cfg, s) && !LostValue(cfg, u, s) else !LimitedToM(cfg, u, s)
    requires SameBefore(cfg, u, u', Measure(cfg, STri(s)))
    ensures SymTri(cfg, u', s) == SymTri(cfg, u, s)
  {
    WithOwnExcept(cfg, u, u', s);
    OwnTriReproduced(cfg, u, min, u', s);
    TriTransfers(cfg, u, WithOwn(u, u', s), u', s);
  }

  lemma TextReproduced(cfg: Config, u: User, min: bool, u': User, s: nat)
    requires Ok(cfg, u) && Ok(cfg, u') && Plain(cfg) && Restores(cfg, u, min, u') && s < |cfg.syms|
    requires !BoolTri(cfg.syms[s].kind) && cfg.syms[s].kind != Unknown && NumbersOk(cfg, u)
    requires cfg.syms[s].choice.None? && (min ==> !LostValue(cfg, u, s))
    requires SameBefore(cfg, u, u', Measure(cfg, SStr(s)))
    ensures SymStr(cfg, u', s) == SymStr(cfg, u, s)
  {
    WithOwnExcept(cfg, u, u', s);
    OwnStrReproduced(cfg, u, min, u', s);
    StrTransfers(cfg, u, WithOwn(u, u', s), u', s);
  }

  lemma ChoiceSymTriReproduced(cfg: Config, u: User, u': User, s: nat)
    requires Ok(cfg, u) && Ok(cfg, u') && Plain(cfg) && s < |cfg.syms|
    requires cfg.syms[s].kind == Bool && cfg.syms[s].choice.Some?
    requires SameBefore(cfg, u, u', Measure(cfg, STri(s)))
    ensures SymTri(cfg, u', s) == SymTri(cfg, u, s)
  {
    assert SymOk(cfg, s);
    assert Fresh(cfg, u', SVis(s)) == Fresh(cfg, u, SVis(s));
    assert Fresh(cfg, u', CSel(cfg.syms[s].choice.value)) == Fresh(cfg, u, CSel(cfg.syms[s].choice.value));
    BoolValue(cfg, u, s);
  }

  lemma SymReproduced(cfg: Config, u: User, min: bool, u': User, q: Slot)
    requires Ok(cfg, u) && Ok(cfg, u') && Plain(cfg) && Restores(cfg, u, min, u') && SlotOk(cfg, q)
    requires (q.STri? || q.SStr?) && NumbersOk(cfg, u)
    requires if min then DepsPropagated(cfg, q.s) && !LostValue(cfg, u, q.s) else !LimitedToM(cfg, u, q.s)
    requires SameBefore(cfg, u, u', Measure(cfg, q))
    ensures Fresh(cfg, u', q) == Fresh(cfg, u, q)
  {
    var d := cfg.syms[q.s];
    if q.SStr? && BoolTri(d.kind) {
      assert Fresh(cfg, u', STri(q.s)) == Fresh(cfg, u, STri(q.s));
    } else if q.SStr? && !BoolTri(d.kind) && d.kind != Unknown {
      TextOutsideChoices(cfg, q.s);
      TextReproduced(cfg, u, min, u', q.s);
    } else if q.STri? && BoolTri(d.kind) && d.choice.None? {
      PlainTriReproduced(cfg, u, min, u', q.s);
    } else if q.STri? && BoolTri(d.kind) {
      ChoiceSymIsBool(cfg, q.s);
      ChoiceSymTriReproduced(cfg, u, u', q.s);
    }
  }

  /** Writing the whole configuration and loading it in place of any other reproduces every value,
      visibility, selection and set of assignable values. */
  lemma FullRoundTrip(cfg: Config, u: User, u0: User, q: Slot)
    requires Ok(cfg, u) && Plain(cfg) && Writable(cfg, u) && NumbersOk(cfg, u0) && SlotOk(cfg, q)
    requires NoneLimited(cfg, u)
    ensures Ok(cfg, Load(cfg, u0, Contents(cfg, u, false)))
            && Fresh(cfg, Load(cfg, u0, Contents(cfg, u, false)), q) == Fresh(cfg, u, q)
  {
    LoadRestores(cfg, u, false, u0);
    Reproduced(cfg, u, false, Load(cfg, u0, Contents(cfg, u, false)), q);
  }

  /** With MODULES at n, or without tristate symbols, no symbol is visible at m only. */
  lemma ModulesOff(cfg: Config, u: User)
    requires Ok(cfg, u)
    requires SymTri(cfg, u, cfg.modules).val == 0 || forall s :: 0 <= s < |cfg.syms| ==> cfg.syms[s].kind != Tristate
    ensures NoneLimited(cfg, u)
  {
    forall s | 0 <= s < |cfg.syms|
      ensures !LimitedToM(cfg, u, s)
    {
      VisibleAtM(cfg, u, s);
    }
  }

  /** It does so just when no symbol is y by its defaults and limited to m. */
  lemma FullRoundTripExact(cfg: Config, u: User, u0: User)
    requires Ok(cfg, u) && Plain(cfg) && Writable(cfg, u) && NumbersOk(cfg, u0)
    ensures Ok(cfg, Load(cfg, u0, Contents(cfg, u, false)))
    ensures var u' := Load(cfg, u0, Contents(cfg, u, false));
            (forall q :: SlotOk(cfg, q) ==> Fresh(cfg, u', q) == Fresh(cfg, u, q)) <==> NoneLimited(cfg, u)
  {
    var u' := Load(cfg, u0, Contents(cfg, u, false));
    LoadRestores(cfg, u, false, u0);
    if NoneLimited(cfg, u) {
      forall q | SlotOk(cfg, q)
        ensures Fresh(cfg, u', q) == Fresh(cfg, u, q)
      {
        FullRoundTrip(cfg, u, u0, q);
      }
    } else {
      var s :| 0 <= s < |cfg.syms| && LimitedToM(cfg, u, s);
      LimitedLost(cfg, u, u', s);
    }
  }

  lemma LimitedLost(cfg: Config, u: User, u': User, s: nat)
    requires Ok(cfg, u) && Ok(cfg, u') && Restores(cfg, u, false, u') && s < |cfg.syms| && LimitedToM(cfg, u, s)
    ensures exists q :: SlotOk(cfg, q) && Fresh(cfg, u', q) != Fresh(cfg, u, q)
  {
    if SameBefore(cfg, u, u', Measure(cfg, STri(s))) {
      var w := WithOwn(u, u', s);
      VisibleAtM(cfg, u, s);
      WithOwnExcept(cfg, u, u', s);
      WrittenIfVisible(cfg, u, s);
      OwnTri(cfg, u, w, s);
      TriTransfers(cfg, u, w, u', s);
      assert Fresh(cfg, u', STri(s)) != Fresh(cfg, u, STri(s));
    }
  }

  /** The minimal configuration, which leaves out the symbols that have their defaults, reproduces
      everything as well. */
  lemma MinimalRoundTrip(cfg: Config, u: User, u0: User, q: Slot)
    requires Ok(cfg, u) && Plain(cfg) && Writable(cfg, u) && NumbersOk(cfg, u0) && SlotOk(cfg, q) && MinimalOk(cfg, u)
    ensures Ok(cfg, Load(cfg, u0, Contents(cfg, u, true)))
            && Fresh(cfg, Load(cfg, u0, Contents(cfg, u, true)), q) == Fresh(cfg, u, q)
  {
    LoadRestores(cfg, u, true, u0);
    Reproduced(cfg, u, true, Load(cfg, u0, Contents(cfg, u, true)), q);
  }

  /** It does so just when it leaves out no symbol whose value is not its default. */
  lemma MinimalRoundTripExact(cfg: Config, u: User, u0: User)
    requires Ok(cfg, u) && Plain(cfg) && Writable(cfg, u) && NumbersOk(cfg, u0)
    requires forall s :: 0 <= s < |cfg.syms| ==> DepsPropagated(cfg, s)
    ensures Ok(cfg, Load(cfg, u0, Contents(cfg, u, true)))
    ensures var u' := Load(cfg, u0, Contents(cfg, u, true));
            (forall q :: SlotOk(cfg, q) ==> Fresh(cfg, u', q) == Fresh(cfg, u, q))
            <==> forall s :: 0 <= s < |cfg.syms| ==> !LostValue(cfg, u, s)
  {
    var u' := Load(cfg, u0, Contents(cfg, u, true));
    LoadRestores(cfg, u, true, u0);
    if forall s :: 0 <= s < |cfg.syms| ==> !LostValue(cfg, u, s) {
      forall q | SlotOk(cfg, q)
        ensures Fresh(cfg, u', q) == Fresh(cfg, u, q)
      {
        MinimalRoundTrip(cfg, u, u0, q);
      }
    } else {
      var s :| 0 <= s < |cfg.syms| && LostValue(cfg, u, s);
      if BoolTri(cfg.syms[s].kind) {
        LostTriLost(cfg, u, u', s);
      } else {
        LostTextLost(cfg, u, u', s);
      }
    }
  }

  lemma LostTextLost(cfg: Config, u: User, u': User, s: nat)
    requires Ok(cfg, u) && Ok(cfg, u') && Restores(cfg, u, true, u') && s < |cfg.syms| && LostValue(cfg, u, s)
    requires !BoolTri(cfg.syms[s].kind)
    ensures exists q :: SlotOk(cfg, q) && Fresh(cfg, u', q) != Fresh(cfg, u, q)
  {
    if SameBefore(cfg, u, u', Measure(cfg, SStr(s))) {
      var w := WithOwn(u, u', s);
      WithOwnExcept(cfg, u, u', s);
      OwnStr(cfg, u, w, s);
      StrTransfers(cfg, u, w, u', s);
      assert Fresh(cfg, u', SStr(s)) != Fresh(cfg, u, SStr(s));
    }
  }

  lemma LostTriLost(cfg: Config, u: User, u': User, s: nat)
    requires Ok(cfg, u) && Ok(cfg, u') && Restores(cfg, u, true, u') && s < |cfg.syms| && LostValue(cfg, u, s)
    requires BoolTri(cfg.syms[s].kind) && DepsPropagated(cfg, s)
    ensures exists q :: SlotOk(cfg, q) && Fresh(cfg, u', q) != Fresh(cfg, u, q)
  {
    if SameBefore(cfg, u, u', Measure(cfg, STri(s))) {
      var w := WithOwn(u, u', s);
      WithOwnExcept(cfg, u, u', s);
      OwnTri(cfg, u, w, s);
      VisibleMeetsDeps(cfg, u, s);
      TriDefaultIs(cfg, u, s);
      TriTransfers(cfg, u, w, u', s);
      assert Fresh(cfg, u', STri(s)) != Fresh(cfg, u, STri(s));
    }
  }
}
