/** Configurations in which a value is lost or changed, or is offered although it is not respected. */
module KconfigExamples {
  import opened KconfigSyntax
  import opened KconfigText
  import opened KconfigValues
  import opened KconfigReads
  import opened KconfigChoices
  import opened KconfigSaveLoad
  import opened KconfigRoundTrip
  import opened KconfigLoadMeaning
  import opened KconfigMeaning

  type ToInt = (string, nat) -> Option<int>
  type NumText = (int, bool) -> string

  const YES := Atom(TriConst(2))
  const NO := Atom(TriConst(0))

  const NOTHING_SET := User(map[], map[], map[], map[])

  /** A bool or tristate symbol with a default and no prompt. */
  function Defaulted(name: string, kind: Kind, value: Tri, rank: nat): SymDef {
    SymDef(name, kind, None, [], [Default(Atom(TriConst(value)), YES)], [], NO, NO, YES, rank)
  }

  /** MODULES and IMP are y and SEL is m. TARGET is visible if SEL, selected by SEL and implied by IMP. */
  function TargetConfig(toInt: ToInt, numText: NumText): Config {
    Config([Defaulted("MODULES", Bool, 2, 0),
            Defaulted("SEL", Tristate, 1, 1),
            Defaulted("IMP", Bool, 2, 1),
            SymDef("TARGET", Tristate, None, [Atom(Sym(1))], [], [], Atom(Sym(1)), Atom(Sym(2)), YES, 2)],
           [], 0, toInt, numText)
  }

  lemma TargetOk(toInt: ToInt, numText: NumText)
    ensures Ok(TargetConfig(toInt, numText), NOTHING_SET)
  {
    var cfg := TargetConfig(toInt, numText);
    assert SymOk(cfg, 0) && SymOk(cfg, 1) && SymOk(cfg, 2) && SymOk(cfg, 3);
  }

  /** The value of a bool symbol with a default y. */
  lemma DefaultedValue(cfg: Config, u: User, name: string, kind: Kind, value: Tri, rank: nat, s: nat)
    requires Ok(cfg, u) && s < |cfg.syms| && cfg.syms[s] == Defaulted(name, kind, value, rank)
    requires (kind == Bool && value != 1) || (kind == Tristate && SymTri(cfg, u, cfg.modules).val == 2)
    ensures SymTri(cfg, u, s).val == value
  {
    var d := cfg.syms[s];
    assert SymOk(cfg, s);
    assert ExprValue(cfg, u, d.rank, YES) == 2 && ExprValue(cfg, u, d.rank, Atom(TriConst(value))) == value;
    assert DefaultTri(cfg, u, d.rank, d.defaults, 0) == TriRes(value, value != 0);
    assert SymVis(cfg, u, s) == 0 && ExprValue(cfg, u, d.rank, NO) == 0;
    assert BaseTri(cfg, u, s).val == value && SelectedTri(cfg, u, s).val == value;
    assert value == 1 ==> SymKind(cfg, u, s) == Tristate;
  }

  /** A symbol that offers m although only y is respected. */
  lemma OfferedNotRespected(toInt: ToInt, numText: NumText)
    ensures var cfg := TargetConfig(toInt, numText);
            && Ok(cfg, NOTHING_SET) && LockedAndImplied(cfg, NOTHING_SET, 3)
            && 1 in SymAssignable(cfg, NOTHING_SET, 3) && !Respected(cfg, NOTHING_SET, 3, 1)
  {
    var cfg, u := TargetConfig(toInt, numText), NOTHING_SET;
    TargetOk(toInt, numText);
    DefaultedValue(cfg, u, "MODULES", Bool, 2, 0, 0);
    DefaultedValue(cfg, u, "SEL", Tristate, 1, 1, 1);
    DefaultedValue(cfg, u, "IMP", Bool, 2, 1, 2);
    assert SymOk(cfg, 3);
    var d := cfg.syms[3];
    assert ExprValue(cfg, u, 2, Atom(Sym(1))) == 1 && ExprValue(cfg, u, 2, Atom(Sym(2))) == 2;
    assert d.prompts[..0] == [] && PromptMax(cfg, u, 2, d.prompts) == 1;
    assert SymVis(cfg, u, 3) == 1;
    AssignableExact(cfg, u, 3);
  }

  /** MODULES and SEL are y. MEM is the only symbol of a tristate choice, and is selected by SEL. */
  function MemberConfig(toInt: ToInt, numText: NumText): Config {
    Config([Defaulted("MODULES", Bool, 2, 0),
            Defaulted("SEL", Bool, 2, 1),
            SymDef("MEM", Tristate, Some(0), [Atom(Choice(0))], [], [], Atom(Sym(1)), NO, Atom(Choice(0)), 3)],
           [ChoiceDef(Tristate, false, [YES], [], [2], 2)], 0, toInt, numText)
  }

  lemma MemberSymOk(toInt: ToInt, numText: NumText)
    ensures var cfg := MemberConfig(toInt, numText); SymOk(cfg, 2) && ChoiceOk(cfg, 0)
  {
    var cfg := MemberConfig(toInt, numText);
    assert Choice(0) in Items(cfg.syms[2].directDep);
  }

  lemma MemberOk(toInt: ToInt, numText: NumText)
    ensures Ok(MemberConfig(toInt, numText), NOTHING_SET)
  {
    var cfg := MemberConfig(toInt, numText);
    MemberSymOk(toInt, numText);
    assert SymOk(cfg, 0) && SymOk(cfg, 1);
  }

  lemma OnePrompt(cfg: Config, u: User, b: nat, e: Expr)
    requires Ok(cfg, u) && ExprBelow(cfg, b, e)
    ensures PromptMax(cfg, u, b, [e]) == ExprValue(cfg, u, b, e)
  {
    assert [e][..0] == [];
    assert PromptMax(cfg, u, b, [e][..0]) == 0;
  }

  /** The choice is in m mode, and MEM is visible at m. */
  lemma MemberVisible(toInt: ToInt, numText: NumText)
    ensures var cfg := MemberConfig(toInt, numText);
            Ok(cfg, NOTHING_SET) && ChoiceTri(cfg, NOTHING_SET, 0) == 1 && SymVis(cfg, NOTHING_SET, 2) == 1
  {
    var cfg, u := MemberConfig(toInt, numText), NOTHING_SET;
    MemberOk(toInt, numText);
    DefaultedValue(cfg, u, "MODULES", Bool, 2, 0, 0);
    assert ChoiceOk(cfg, 0) && SymOk(cfg, 2);
    assert ExprValue(cfg, u, 2, YES) == 2;
    OnePrompt(cfg, u, 2, YES);
    assert ChoiceKind(cfg, u, 0) == Tristate && ChoiceVis(cfg, u, 0) == 2 && RawMode(cfg, u, 0) == 1;
    assert ChoiceTri(cfg, u, 0) == 1;
    assert ExprValue(cfg, u, 3, Atom(Choice(0))) == 1;
    OnePrompt(cfg, u, 3, Atom(Choice(0)));
    assert PromptMax(cfg, u, 3, cfg.syms[2].prompts) == 1 && SymKind(cfg, u, 2) == Tristate;
  }

  /** In an m-mode choice: y is the only value offered for a selected symbol, and is not respected. */
  lemma OnlyYOffered(toInt: ToInt, numText: NumText)
    ensures var cfg := MemberConfig(toInt, numText);
            && Ok(cfg, NOTHING_SET) && ChoiceTri(cfg, NOTHING_SET, 0) == 1 && SymVis(cfg, NOTHING_SET, 2) == 1
            && SymAssignable(cfg, NOTHING_SET, 2) == [2]
            && Respected(cfg, NOTHING_SET, 2, 0) && Respected(cfg, NOTHING_SET, 2, 1)
            && !Respected(cfg, NOTHING_SET, 2, 2)
  {
    var cfg, u := MemberConfig(toInt, numText), NOTHING_SET;
    MemberVisible(toInt, numText);
    DefaultedValue(cfg, u, "SEL", Bool, 2, 1, 1);
    assert SymOk(cfg, 2);
    assert ExprValue(cfg, u, 3, Atom(Sym(1))) == 2;
    MModeRespected(cfg, u, 2, 0);
    MModeRespected(cfg, u, 2, 1);
    MModeRespected(cfg, u, 2, 2);
  }

  /** SEL is y and selects the string symbol TEXT, which the user has set. */
  function TextConfig(toInt: ToInt, numText: NumText): Config {
    Config([Defaulted("MODULES", Bool, 0, 0),
            Defaulted("SEL", Bool, 2, 0),
            SymDef("TEXT", Text, None, [YES], [], [], Atom(Sym(1)), NO, YES, 1)],
           [], 0, toInt, numText)
  }

  const TEXT_SET := User(map[], map[2 := "text"], map[], map[])

  lemma TextOk(toInt: ToInt, numText: NumText)
    ensures Ok(TextConfig(toInt, numText), TEXT_SET)
  {
    var cfg := TextConfig(toInt, numText);
    assert SymOk(cfg, 0) && SymOk(cfg, 1) && SymOk(cfg, 2);
  }

  lemma Names()
    ensures NameOk("MODULES") && NameOk("SEL") && NameOk("TEXT") && NameOk("LIMITED")
    ensures "MODULES" != "SEL" && "MODULES" != "TEXT" && "SEL" != "TEXT" && "MODULES" != "LIMITED"
  {
    assert "MODULES"[0] == 'M' && "SEL"[0] == 'S' && "TEXT"[0] == 'T' && "LIMITED"[0] == 'L';
  }

  lemma TextPlain(toInt: ToInt, numText: NumText)
    ensures Plain(TextConfig(toInt, numText))
  {
    TextOk(toInt, numText);
    Names();
  }

  lemma TextPropagated(toInt: ToInt, numText: NumText, s: nat)
    requires s < 3
    ensures DepsPropagated(TextConfig(toInt, numText), s)
  {
    assert YES in OrParts(YES) && AndParts(YES) <= AndParts(YES) + {Atom(TriConst(2))};
  }

  /** A string that a minimal configuration loses. */
  lemma TextLost(toInt: ToInt, numText: NumText, u0: User)
    requires NumbersOk(TextConfig(toInt, numText), u0)
    ensures var cfg := TextConfig(toInt, numText);
            && Ok(cfg, TEXT_SET) && Plain(cfg) && Writable(cfg, TEXT_SET) && LostValue(cfg, TEXT_SET, 2)
            && var u' := Load(cfg, u0, Contents(cfg, TEXT_SET, true));
               Ok(cfg, u') && !forall q :: SlotOk(cfg, q) ==> Fresh(cfg, u', q) == Fresh(cfg, TEXT_SET, q)
  {
    var cfg, u := TextConfig(toInt, numText), TEXT_SET;
    TextOk(toInt, numText);
    TextPlain(toInt, numText);
    forall s: nat | s < |cfg.syms|
      ensures DepsPropagated(cfg, s)
    {
      TextPropagated(toInt, numText, s);
    }
    DefaultedValue(cfg, u, "SEL", Bool, 2, 0, 1);
    assert SymOk(cfg, 2);
    var d := cfg.syms[2];
    assert d.prompts[..0] == [] && PromptMax(cfg, u, 1, d.prompts) == 2;
    assert SymVis(cfg, u, 2) == 2 && SymStr(cfg, u, 2).val == "text" && StrDefault(cfg, u, 2) == "";
    assert ExprValue(cfg, u, 1, Atom(Sym(1))) == 2;
    assert LostValue(cfg, u, 2);
    MinimalRoundTripExact(cfg, u, u0);
  }

  /** MODULES is y. LIMITED is y by default, and visible at m. */
  function LimitedConfig(toInt: ToInt, numText: NumText): Config {
    Config([Defaulted("MODULES", Bool, 2, 0),
            SymDef("LIMITED", Tristate, None, [Atom(TriConst(1))], [Default(YES, YES)], [], NO, NO, YES, 1)],
           [], 0, toInt, numText)
  }

  lemma LimitedOk(toInt: ToInt, numText: NumText)
    ensures Ok(LimitedConfig(toInt, numText), NOTHING_SET)
  {
    var cfg := LimitedConfig(toInt, numText);
    assert SymOk(cfg, 0) && SymOk(cfg, 1);
  }

  lemma LimitedPlain(toInt: ToInt, numText: NumText)
    ensures Plain(LimitedConfig(toInt, numText))
  {
    LimitedOk(toInt, numText);
    Names();
  }

  lemma LimitedIs(toInt: ToInt, numText: NumText)
    ensures Ok(LimitedConfig(toInt, numText), NOTHING_SET)
    ensures LimitedToM(LimitedConfig(toInt, numText), NOTHING_SET, 1)
  {
    var cfg, u := LimitedConfig(toInt, numText), NOTHING_SET;
    LimitedOk(toInt, numText);
    DefaultedValue(cfg, u, "MODULES", Bool, 2, 0, 0);
    assert SymOk(cfg, 1);
    var d := cfg.syms[1];
    var m := Atom(TriConst(1));
    OnePrompt(cfg, u, 1, m);
    assert ExprValue(cfg, u, 1, m) == 1 && ExprValue(cfg, u, 1, YES) == 2 && ExprValue(cfg, u, 1, NO) == 0;
    assert SymKind(cfg, u, 1) == Tristate && SymVis(cfg, u, 1) == 1;
    assert DefaultTri(cfg, u, 1, d.defaults, 0) == TriRes(2, true);
    assert BaseTri(cfg, u, 1).val == 2 && SelectedTri(cfg, u, 1).val == 2;
  }

  /** A tristate symbol that a written configuration does not give its value back. */
  lemma LimitedChanges(toInt: ToInt, numText: NumText, u0: User)
    requires NumbersOk(LimitedConfig(toInt, numText), u0)
    ensures var cfg := LimitedConfig(toInt, numText);
            && Ok(cfg, NOTHING_SET) && Plain(cfg) && Writable(cfg, NOTHING_SET) && LimitedToM(cfg, NOTHING_SET, 1)
            && var u' := Load(cfg, u0, Contents(cfg, NOTHING_SET, false));
               Ok(cfg, u') && !forall q :: SlotOk(cfg, q) ==> Fresh(cfg, u', q) == Fresh(cfg, NOTHING_SET, q)
  {
    LimitedPlain(toInt, numText);
    LimitedIs(toInt, numText);
    assert !NoneLimited(LimitedConfig(toInt, numText), NOTHING_SET);
    FullRoundTripExact(LimitedConfig(toInt, numText), NOTHING_SET, u0);
  }

  /** MODULES is y and M is m. T has the default y if M, and no prompt. */
  function DefaultIfConfig(toInt: ToInt, numText: NumText): Config {
    Config([Defaulted("MODULES", Bool, 2, 0),
            Defaulted("M", Tristate, 1, 1),
            SymDef("T", Tristate, None, [], [Default(YES, Atom(Sym(1)))], [], NO, NO, YES, 2)],
           [], 0, toInt, numText)
  }

  lemma DefaultIfOk(toInt: ToInt, numText: NumText)
    ensures Ok(DefaultIfConfig(toInt, numText), NOTHING_SET)
  {
    var cfg := DefaultIfConfig(toInt, numText);
    assert SymOk(cfg, 0) && SymOk(cfg, 1) && SymOk(cfg, 2);
  }

  /** A default y under a condition that is m makes its symbol m only. */
  lemma DefaultLimited(toInt: ToInt, numText: NumText)
    ensures var cfg := DefaultIfConfig(toInt, numText);
            && Ok(cfg, NOTHING_SET)
            && SymTri(cfg, NOTHING_SET, 1).val == 1 && SymTri(cfg, NOTHING_SET, 2) == TriRes(1, true)
  {
    var cfg, u := DefaultIfConfig(toInt, numText), NOTHING_SET;
    DefaultIfOk(toInt, numText);
    DefaultedValue(cfg, u, "MODULES", Bool, 2, 0, 0);
    DefaultedValue(cfg, u, "M", Tristate, 1, 1, 1);
    var d := cfg.syms[2];
    ExprMeaning(cfg, u, 2, YES);
    ExprMeaning(cfg, u, 2, NO);
    ExprMeaning(cfg, u, 2, Atom(Sym(1)));
    assert FirstDefault(cfg, u, 2, 0);
    ValueFromDefaults(cfg, u, 2);
    var own: Tri, raw: Tri :|
      OwnValue(cfg, u, 2, own) && LargestOf(raw, SelectedTo(cfg, u, 2), MetImply(cfg, u, 2), own)
      && RaisedFromM(cfg, u, 2, raw, SymTri(cfg, u, 2).val)
      && (SymTri(cfg, u, 2).write <==> SymVis(cfg, u, 2) != 0 || raw != 0);
    var one: Tri := 1;
    assert OwnValue(cfg, u, 2, one);
    OneOwnValue(cfg, u, 2, own, one);
  }

  /** The user has picked MEM. */
  const PICKED := User(map[], map[], map[], map[0 := 2])

  const GIVES_M := "CONFIG_MEM=m"

  lemma MemberNamed(toInt: ToInt, numText: NumText)
    ensures Named(MemberConfig(toInt, numText)) && ModesOk(MemberConfig(toInt, numText), PICKED)
  {
    MemberOk(toInt, numText);
    assert "MODULES"[1] == 'O' && "MEM"[1] == 'E' && "SEL"[0] == 'S' && "MODULES"[0] == "MEM"[0] == 'M';
  }

  lemma GivesOnlyM(toInt: ToInt, numText: NumText)
    ensures var cfg, m: Tri, y: Tri := MemberConfig(toInt, numText), 1, 2;
            Gives(cfg, 2, GIVES_M, m) && !Gives(cfg, 2, GIVES_M, y)
  {
    assert "CONFIG_" + "MEM" + "=m" == GIVES_M && "CONFIG_" + "MEM" + "=y" == "CONFIG_MEM=y";
    assert GIVES_M[11] == 'm' && "CONFIG_MEM=y"[11] == 'y';
  }

  /** Loading a file in place of all user values leaves an earlier pick, if the file gives m to a symbol of the
      choice. */
  lemma EarlierPickStays(toInt: ToInt, numText: NumText)
    ensures var cfg := MemberConfig(toInt, numText);
            Ok(cfg, PICKED) && var u' := Load(cfg, PICKED, GIVES_M); 0 in u'.pick && u'.pick[0] == 2
  {
    var cfg := MemberConfig(toInt, numText);
    MemberOk(toInt, numText);
    MemberNamed(toInt, numText);
    assert Ended([], [], GIVES_M) && Whole([], [], GIVES_M) == GIVES_M;
    LinesMeaning([], [], GIVES_M);
    var lines := Split(Translate(GIVES_M));
    assert lines == [GIVES_M] && lines[0] == GIVES_M;
    GivesOnlyM(toInt, numText);
    var m: Tri := 1;
    assert Member(cfg, 0, 2) && GivesMode(cfg, 0, lines[0], m);
    assert NoPick(cfg, 0, lines) by {
      assert forall t: nat :: Member(cfg, 0, t) ==> t == 2;
    }
    KconfigLoadMeaning.LoadedPick(cfg, PICKED, GIVES_M, 0, 2);
  }
}
