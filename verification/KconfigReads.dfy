/** Which values the computation of a value reads, and why nothing else matters to it.

    A slot is a value that is computed on demand. `Reads` lists the slots that the computation of a
    slot reads directly, with && and || cut short, so it depends on the values read so far. */
module KconfigReads {
  import opened KconfigSyntax
  import opened KconfigValues

  datatype Slot =
    | SVis(s: nat) | STri(s: nat) | SStr(s: nat) | SAsg(s: nat)
    | CVis(c: nat) | CTri(c: nat) | CSel(c: nat) | CAsg(c: nat)

  datatype Val =
    | VisVal(vis: Tri)
    | TriVal(tri: TriRes)
    | StrVal(str: StrRes)
    | SelVal(sel: Option<nat>)
    | AsgVal(asg: seq<Tri>)

  function Owner(q: Slot): Item {
    match q
    case SVis(s) => Sym(s)
    case STri(s) => Sym(s)
    case SStr(s) => Sym(s)
    case SAsg(s) => Sym(s)
    case CVis(c) => Choice(c)
    case CTri(c) => Choice(c)
    case CSel(c) => Choice(c)
    case CAsg(c) => Choice(c)
  }

  function VisOf(i: Item): Slot
    requires i.Sym? || i.Choice?
  {
    if i.Sym? then SVis(i.s) else CVis(i.c)
  }

  predicate SlotOk(cfg: Config, q: Slot) {
    Known(cfg, Owner(q))
  }

  /** The value of a slot, computed from the user's input alone. */
  function Fresh(cfg: Config, u: User, q: Slot): Val
    requires Ok(cfg, u) && SlotOk(cfg, q)
  {
    match q
    case SVis(s) => VisVal(SymVis(cfg, u, s))
    case STri(s) => TriVal(SymTri(cfg, u, s))
    case SStr(s) => StrVal(SymStr(cfg, u, s))
    case SAsg(s) => AsgVal(SymAssignable(cfg, u, s))
    case CVis(c) => VisVal(ChoiceVis(cfg, u, c))
    case CTri(c) => VisVal(ChoiceTri(cfg, u, c))
    case CSel(c) => SelVal(Selection(cfg, u, c))
    case CAsg(c) => AsgVal(ChoiceAssignable(cfg, u, c))
  }

  /* What each computation reads */

  function ItemReads(i: Item): set<Slot> {
    match i
    case Sym(s) => {STri(s)}
    case Choice(c) => {CTri(c)}
    case _ => {}
  }

  function TextReads(i: Item): set<Slot> {
    if i.Sym? then {SStr(i.s)} else {}
  }

  function NumReads(cfg: Config, i: Item): set<Slot>
    requires Known(cfg, i)
  {
    if BoolTri(KindOf(cfg, i)) then ItemReads(i) else TextReads(i)
  }

  function RelReads(cfg: Config, u: User, b: nat, x: Item, y: Item): set<Slot>
    requires Ok(cfg, u) && Below(cfg, b, x) && Below(cfg, b, y) && IsSymbol(x) && IsSymbol(y)
  {
    if KindOf(cfg, x) == Text && KindOf(cfg, y) == Text then TextReads(x) + TextReads(y)
    else
      NumReads(cfg, x)
      + (if ItemNum(cfg, u, b, x).None? then TextReads(x) + TextReads(y)
         else NumReads(cfg, y) + if ItemNum(cfg, u, b, y).None? then TextReads(x) + TextReads(y) else {})
  }

  function ExprReads(cfg: Config, u: User, b: nat, e: Expr): set<Slot>
    requires Ok(cfg, u) && ExprBelow(cfg, b, e)
  {
    match e
    case Atom(i) => ItemReads(i)
    case And(l, r) =>
      ExprReads(cfg, u, b, l) + if ExprValue(cfg, u, b, l) == 0 then {} else ExprReads(cfg, u, b, r)
    case Or(l, r) =>
      ExprReads(cfg, u, b, l) + if ExprValue(cfg, u, b, l) == 2 then {} else ExprReads(cfg, u, b, r)
    case Not(f) => ExprReads(cfg, u, b, f)
    case Rel(_, x, y) => RelReads(cfg, u, b, x, y)
  }

  function PromptReads(cfg: Config, u: User, b: nat, ps: seq<Expr>): set<Slot>
    requires Ok(cfg, u) && forall k :: 0 <= k < |ps| ==> ExprBelow(cfg, b, ps[k])
  {
    if ps == [] then {}
    else PromptReads(cfg, u, b, ps[..|ps| - 1]) + ExprReads(cfg, u, b, ps[|ps| - 1])
  }

  function KindReads(cfg: Config, u: User, s: nat): set<Slot>
    requires Ok(cfg, u) && s < |cfg.syms|
  {
    var d := cfg.syms[s];
    assert SymOk(cfg, s);
    if d.kind != Tristate then {}
    else if d.choice.Some? then
      {CTri(d.choice.value)} + if ChoiceTri(cfg, u, d.choice.value) == 2 then {} else {STri(cfg.modules)}
    else {STri(cfg.modules)}
  }

  function SymVisReads(cfg: Config, u: User, s: nat): set<Slot>
    requires Ok(cfg, u) && s < |cfg.syms|
  {
    var d := cfg.syms[s];
    assert SymOk(cfg, s);
    var vis := PromptMax(cfg, u, d.rank, d.prompts);
    PromptReads(cfg, u, d.rank, d.prompts)
    + (if d.choice.Some? && ((cfg.choices[d.choice.value].kind == Tristate && d.kind != Tristate)
                             || (d.kind == Tristate && vis == 1))
       then {CTri(d.choice.value)} else {})
    + (if vis == 1 && SymVis(cfg, u, s) != 0 then KindReads(cfg, u, s) else {})
  }

  function ChoiceKindReads(cfg: Config, c: nat): set<Slot>
    requires c < |cfg.choices|
  {
    if cfg.choices[c].kind == Tristate then {STri(cfg.modules)} else {}
  }

  function ChoiceVisReads(cfg: Config, u: User, c: nat): set<Slot>
    requires Ok(cfg, u) && c < |cfg.choices|
  {
    var d := cfg.choices[c];
    assert ChoiceOk(cfg, c);
    PromptReads(cfg, u, d.rank, d.prompts)
    + if PromptMax(cfg, u, d.rank, d.prompts) == 1 then ChoiceKindReads(cfg, c) else {}
  }

  function ChoiceTriReads(cfg: Config, u: User, c: nat): set<Slot>
    requires Ok(cfg, u) && c < |cfg.choices|
  {
    {CVis(c)} + if RawMode(cfg, u, c) == 1 then ChoiceKindReads(cfg, c) else {}
  }

  function FirstVisibleReads(cfg: Config, u: User, c: nat, k: nat): set<Slot>
    requires Ok(cfg, u) && c < |cfg.choices| && k <= |cfg.choices[c].syms|
    decreases |cfg.choices[c].syms| - k
  {
    var d := cfg.choices[c];
    assert ChoiceOk(cfg, c);
    if k == |d.syms| then {}
    else
      assert d.syms[k] in d.syms;
      {SVis(d.syms[k])} + if SymVis(cfg, u, d.syms[k]) != 0 then {} else FirstVisibleReads(cfg, u, c, k + 1)
  }

  /** What is read to see whether default selection `k` of the choice applies. */
  function PickReads(cfg: Config, u: User, c: nat, k: nat): set<Slot>
    requires Ok(cfg, u) && c < |cfg.choices| && k < |cfg.choices[c].picks|
  {
    var d := cfg.choices[c];
    assert ChoiceOk(cfg, c);
    ExprReads(cfg, u, d.rank, d.picks[k].cond)
    + if ExprValue(cfg, u, d.rank, d.picks[k].cond) != 0 then {SVis(d.picks[k].sym)} else {}
  }

  function DefaultPickReads(cfg: Config, u: User, c: nat, k: nat): set<Slot>
    requires Ok(cfg, u) && c < |cfg.choices| && k <= |cfg.choices[c].picks|
    decreases |cfg.choices[c].picks| - k
  {
    var d := cfg.choices[c];
    assert ChoiceOk(cfg, c);
    if k == |d.picks| then FirstVisibleReads(cfg, u, c, 0)
    else
      assert d.picks[k].sym in d.syms;
      PickReads(cfg, u, c, k)
      + if ExprValue(cfg, u, d.rank, d.picks[k].cond) != 0 && SymVis(cfg, u, d.picks[k].sym) != 0 then {}
      else DefaultPickReads(cfg, u, c, k + 1)
  }

  lemma {:induction false} DefaultPickStep(cfg: Config, u: User, c: nat, k: nat)
    requires Ok(cfg, u) && c < |cfg.choices| && k < |cfg.choices[c].picks|
    ensures (PickOk(cfg, c, k); ChoiceSym(cfg, c, cfg.choices[c].picks[k].sym);
             var p := cfg.choices[c].picks[k];
             if ExprValue(cfg, u, cfg.choices[c].rank, p.cond) != 0 && SymVis(cfg, u, p.sym) != 0
             then DefaultPick(cfg, u, c, k) == Some(p.sym) && DefaultPickReads(cfg, u, c, k) == PickReads(cfg, u, c, k)
             else DefaultPick(cfg, u, c, k) == DefaultPick(cfg, u, c, k + 1)
                  && DefaultPickReads(cfg, u, c, k) == PickReads(cfg, u, c, k) + DefaultPickReads(cfg, u, c, k + 1))
  {
    assert ChoiceOk(cfg, c);
  }

  function SelectionReads(cfg: Config, u: User, c: nat): set<Slot>
    requires Ok(cfg, u) && c < |cfg.choices|
  {
    assert ChoiceOk(cfg, c);
    {CTri(c)}
    + if ChoiceTri(cfg, u, c) != 2 then {}
    else if c in u.pick then
      {SVis(u.pick[c])} + if SymVis(cfg, u, u.pick[c]) != 0 then {} else DefaultPickReads(cfg, u, c, 0)
    else DefaultPickReads(cfg, u, c, 0)
  }

  function DefaultTriReads(cfg: Config, u: User, b: nat, ds: seq<Default>, k: nat): set<Slot>
    requires Ok(cfg, u) && k <= |ds|
    requires forall j :: 0 <= j < |ds| ==> ExprBelow(cfg, b, ds[j].value) && ExprBelow(cfg, b, ds[j].cond)
    decreases |ds| - k
  {
    if k == |ds| then {}
    else
      ExprReads(cfg, u, b, ds[k].cond)
      + if ExprValue(cfg, u, b, ds[k].cond) != 0 then ExprReads(cfg, u, b, ds[k].value)
      else DefaultTriReads(cfg, u, b, ds, k + 1)
  }

  function BaseTriReads(cfg: Config, u: User, s: nat): set<Slot>
    requires Ok(cfg, u) && s < |cfg.syms|
  {
    var d := cfg.syms[s];
    assert SymOk(cfg, s);
    {SVis(s)}
    + if SymVis(cfg, u, s) != 0 && s in u.tri then {}
    else
      DefaultTriReads(cfg, u, d.rank, d.defaults, 0)
      + ExprReads(cfg, u, d.rank, d.weakRevDep)
      + if ExprValue(cfg, u, d.rank, d.weakRevDep) != 0 then ExprReads(cfg, u, d.rank, d.directDep) else {}
  }

  function SymTriReads(cfg: Config, u: User, s: nat): set<Slot>
    requires Ok(cfg, u) && s < |cfg.syms|
  {
    var d := cfg.syms[s];
    assert SymOk(cfg, s);
    if !BoolTri(d.kind) then {}
    else if d.choice.None? then
      BaseTriReads(cfg, u, s)
      + ExprReads(cfg, u, d.rank, d.revDep)
      + if SelectedTri(cfg, u, s).val == 1 then
          KindReads(cfg, u, s)
          + if SymKind(cfg, u, s) == Bool then {} else ExprReads(cfg, u, d.rank, d.weakRevDep)
        else {}
    else {SVis(s)} + if SymVis(cfg, u, s) == 2 then {CSel(d.choice.value)} else {}
  }

  function DefaultStrReads(cfg: Config, u: User, b: nat, ds: seq<Default>, k: nat): set<Slot>
    requires Ok(cfg, u) && k <= |ds|
    requires forall j :: 0 <= j < |ds| ==>
                           && ExprBelow(cfg, b, ds[j].value) && ExprBelow(cfg, b, ds[j].cond)
                           && ds[j].value.Atom? && IsSymbol(ds[j].value.item)
    decreases |ds| - k
  {
    if k == |ds| then {}
    else
      ExprReads(cfg, u, b, ds[k].cond)
      + if ExprValue(cfg, u, b, ds[k].cond) != 0 then TextReads(ds[k].value.item)
      else DefaultStrReads(cfg, u, b, ds, k + 1)
  }

  function RangeReads(cfg: Config, u: User, b: nat, rs: seq<Range>, k: nat): set<Slot>
    requires Ok(cfg, u) && k <= |rs|
    requires forall j :: 0 <= j < |rs| ==> ExprBelow(cfg, b, rs[j].cond)
    decreases |rs| - k
  {
    if k == |rs| then {}
    else
      ExprReads(cfg, u, b, rs[k].cond)
      + if ExprValue(cfg, u, b, rs[k].cond) != 0 then TextReads(rs[k].low) + TextReads(rs[k].high)
      else RangeReads(cfg, u, b, rs, k + 1)
  }

  /** The user's text is used, so that no default is looked at. */
  predicate UsesText(cfg: Config, u: User, s: nat)
    requires Ok(cfg, u) && s < |cfg.syms| && !BoolTri(cfg.syms[s].kind)
  {
    var d := cfg.syms[s];
    assert SymOk(cfg, s);
    && SymVis(cfg, u, s) != 0 && s in u.text
    && (d.kind == Text || (u.text[s] != "" && InRange(ActiveRange(cfg, u, d.rank, Base(d.kind), d.ranges, 0),
                                                      Number(cfg, u.text[s], Base(d.kind)))))
  }

  function SymStrReads(cfg: Config, u: User, s: nat): set<Slot>
    requires Ok(cfg, u) && s < |cfg.syms|
  {
    var d := cfg.syms[s];
    assert SymOk(cfg, s);
    if BoolTri(d.kind) then {STri(s)}
    else if d.kind == Unknown then {}
    else
      {SVis(s)}
      + (if IntHex(d.kind) then RangeReads(cfg, u, d.rank, d.ranges, 0) else {})
      + if UsesText(cfg, u, s) then {} else DefaultStrReads(cfg, u, d.rank, d.defaults, 0)
  }

  function SymAsgReads(cfg: Config, u: User, s: nat): set<Slot>
    requires Ok(cfg, u) && s < |cfg.syms|
  {
    var d := cfg.syms[s];
    assert SymOk(cfg, s);
    if !BoolTri(d.kind) then {}
    else
      var vis := SymVis(cfg, u, s);
      var rev := ExprValue(cfg, u, d.rank, d.revDep);
      {SVis(s)}
      + (if vis == 0 then {}
         else ExprReads(cfg, u, d.rank, d.revDep)
              + if vis == 2 && (d.choice.Some? || rev == 2) then {}
              else if vis == 2 then
                KindReads(cfg, u, s)
                + if SymKind(cfg, u, s) == Bool then {} else ExprReads(cfg, u, d.rank, d.weakRevDep)
              else if rev == 0 then ExprReads(cfg, u, d.rank, d.weakRevDep) else {})
  }

  function ChoiceAsgReads(cfg: Config, u: User, c: nat): set<Slot>
    requires Ok(cfg, u) && c < |cfg.choices|
  {
    {CVis(c)} + if ChoiceVis(cfg, u, c) == 2 then ChoiceKindReads(cfg, c) else {}
  }

  function Reads(cfg: Config, u: User, q: Slot): set<Slot>
    requires Ok(cfg, u) && SlotOk(cfg, q)
  {
    match q
    case SVis(s) => SymVisReads(cfg, u, s)
    case STri(s) => SymTriReads(cfg, u, s)
    case SStr(s) => SymStrReads(cfg, u, s)
    case SAsg(s) => SymAsgReads(cfg, u, s)
    case CVis(c) => ChoiceVisReads(cfg, u, c)
    case CTri(c) => ChoiceTriReads(cfg, u, c)
    case CSel(c) => SelectionReads(cfg, u, c)
    case CAsg(c) => ChoiceAsgReads(cfg, u, c)
  }

  /* Only what is read matters */

  predicate SameAt<T(==)>(m: map<nat, T>, m': map<nat, T>, k: nat) {
    (k in m <==> k in m') && (k in m ==> m[k] == m'[k])
  }

  /** The two inputs agree on what the computation of slot `q` itself takes from the user. A symbol
      without a prompt ignores its user value. */
  predicate SameInput(cfg: Config, u: User, u': User, q: Slot)
    requires SlotOk(cfg, q)
  {
    match q
    case STri(s) => cfg.syms[s].prompts == [] || SameAt(u.tri, u'.tri, s)
    case SStr(s) => cfg.syms[s].prompts == [] || SameAt(u.text, u'.text, s)
    case CTri(c) => SameAt(u.mode, u'.mode, c)
    case CSel(c) => SameAt(u.pick, u'.pick, c)
    case _ => true
  }

  /** The two inputs give the slots of `rs` the same values. */
  ghost predicate Same(cfg: Config, u: User, u': User, rs: set<Slot>)
    requires Ok(cfg, u) && Ok(cfg, u')
  {
    forall r :: r in rs ==> SlotOk(cfg, r) && Fresh(cfg, u, r) == Fresh(cfg, u', r)
  }

  lemma {:induction false} NoPromptInvisible(cfg: Config, u: User, s: nat)
    requires Ok(cfg, u) && s < |cfg.syms| && cfg.syms[s].prompts == []
    ensures SymVis(cfg, u, s) == 0
  {
    assert SymOk(cfg, s);
  }

  lemma CongruentItem(cfg: Config, u: User, u': User, b: nat, i: Item)
    requires Ok(cfg, u) && Ok(cfg, u')
    requires Below(cfg, b, i) && Same(cfg, u, u', ItemReads(i))
    ensures ItemTri(cfg, u, b, i) == ItemTri(cfg, u', b, i)
  {
    if i.Sym? {
      assert STri(i.s) in ItemReads(i);
    } else if i.Choice? {
      assert CTri(i.c) in ItemReads(i);
    }
  }

  lemma CongruentText(cfg: Config, u: User, u': User, b: nat, i: Item)
    requires Ok(cfg, u) && Ok(cfg, u')
    requires Below(cfg, b, i) && IsSymbol(i) && Same(cfg, u, u', TextReads(i))
    ensures ItemStr(cfg, u, b, i) == ItemStr(cfg, u', b, i)
  {
    if i.Sym? {
      assert SStr(i.s) in TextReads(i);
    }
  }

  lemma CongruentNum(cfg: Config, u: User, u': User, b: nat, i: Item)
    requires Ok(cfg, u) && Ok(cfg, u')
    requires Below(cfg, b, i) && IsSymbol(i) && Same(cfg, u, u', NumReads(cfg, i))
    ensures ItemNum(cfg, u, b, i) == ItemNum(cfg, u', b, i)
  {
    if BoolTri(KindOf(cfg, i)) {
      CongruentItem(cfg, u, u', b, i);
    } else {
      CongruentText(cfg, u, u', b, i);
    }
  }

  lemma CongruentRel(cfg: Config, u: User, u': User, b: nat, x: Item, y: Item)
    requires Ok(cfg, u) && Ok(cfg, u')
    requires Below(cfg, b, x) && Below(cfg, b, y) && IsSymbol(x) && IsSymbol(y)
    requires Same(cfg, u, u', RelReads(cfg, u, b, x, y))
    ensures Compare(cfg, u, b, x, y) == Compare(cfg, u', b, x, y)
    ensures RelReads(cfg, u, b, x, y) == RelReads(cfg, u', b, x, y)
  {
    if !(KindOf(cfg, x) == Text && KindOf(cfg, y) == Text) {
      CongruentNum(cfg, u, u', b, x);
      if ItemNum(cfg, u, b, x).Some? {
        CongruentNum(cfg, u, u', b, y);
      }
    }
    if AsText(cfg, u, b, x, y) {
      CongruentText(cfg, u, u', b, x);
      CongruentText(cfg, u, u', b, y);
    }
  }

  lemma {:induction false} CongruentExpr(cfg: Config, u: User, u': User, b: nat, e: Expr)
    requires Ok(cfg, u) && Ok(cfg, u')
    requires ExprBelow(cfg, b, e) && Same(cfg, u, u', ExprReads(cfg, u, b, e))
    ensures ExprValue(cfg, u, b, e) == ExprValue(cfg, u', b, e)
    ensures ExprReads(cfg, u, b, e) == ExprReads(cfg, u', b, e)
  {
    match e
    case Atom(i) => CongruentItem(cfg, u, u', b, i);
    case And(l, r) =>
      CongruentExpr(cfg, u, u', b, l);
      if ExprValue(cfg, u, b, l) != 0 { CongruentExpr(cfg, u, u', b, r); }
    case Or(l, r) =>
      CongruentExpr(cfg, u, u', b, l);
      if ExprValue(cfg, u, b, l) != 2 { CongruentExpr(cfg, u, u', b, r); }
    case Not(f) => CongruentExpr(cfg, u, u', b, f);
    case Rel(_, x, y) => CongruentRel(cfg, u, u', b, x, y);
  }

  lemma {:induction false} CongruentPrompts(cfg: Config, u: User, u': User, b: nat, ps: seq<Expr>)
    requires Ok(cfg, u) && Ok(cfg, u')
    requires forall k :: 0 <= k < |ps| ==> ExprBelow(cfg, b, ps[k])
    requires Same(cfg, u, u', PromptReads(cfg, u, b, ps))
    ensures PromptMax(cfg, u, b, ps) == PromptMax(cfg, u', b, ps)
    ensures PromptReads(cfg, u, b, ps) == PromptReads(cfg, u', b, ps)
  {
    if ps != [] {
      CongruentPrompts(cfg, u, u', b, ps[..|ps| - 1]);
      CongruentExpr(cfg, u, u', b, ps[|ps| - 1]);
    }
  }

  lemma CongruentKind(cfg: Config, u: User, u': User, s: nat)
    requires Ok(cfg, u) && Ok(cfg, u')
    requires s < |cfg.syms| && Same(cfg, u, u', KindReads(cfg, u, s))
    ensures SymKind(cfg, u, s) == SymKind(cfg, u', s)
    ensures KindReads(cfg, u, s) == KindReads(cfg, u', s)
  {
    var d := cfg.syms[s];
    assert SymOk(cfg, s);
    if d.kind == Tristate {
      if d.choice.Some? {
        assert CTri(d.choice.value) in KindReads(cfg, u, s);
      }
      if d.choice.None? || ChoiceTri(cfg, u, d.choice.value) != 2 {
        assert STri(cfg.modules) in KindReads(cfg, u, s);
      }
    }
  }

  lemma CongruentChoiceKind(cfg: Config, u: User, u': User, c: nat)
    requires Ok(cfg, u) && Ok(cfg, u')
    requires c < |cfg.choices| && Same(cfg, u, u', ChoiceKindReads(cfg, c))
    ensures ChoiceKind(cfg, u, c) == ChoiceKind(cfg, u', c)
  {
    if cfg.choices[c].kind == Tristate {
      assert STri(cfg.modules) in ChoiceKindReads(cfg, c);
    }
  }

  lemma CongruentSymVis(cfg: Config, u: User, u': User, s: nat)
    requires Ok(cfg, u) && Ok(cfg, u')
    requires s < |cfg.syms| && Same(cfg, u, u', SymVisReads(cfg, u, s))
    ensures SymVis(cfg, u, s) == SymVis(cfg, u', s)
    ensures SymVisReads(cfg, u, s) == SymVisReads(cfg, u', s)
  {
    var d := cfg.syms[s];
    assert SymOk(cfg, s);
    CongruentPrompts(cfg, u, u', d.rank, d.prompts);
    var vis := PromptMax(cfg, u, d.rank, d.prompts);
    if d.choice.Some? && ((cfg.choices[d.choice.value].kind == Tristate && d.kind != Tristate)
                          || (d.kind == Tristate && vis == 1)) {
      assert CTri(d.choice.value) in SymVisReads(cfg, u, s);
    }
    if vis == 1 && SymVis(cfg, u, s) != 0 {
      CongruentKind(cfg, u, u', s);
    }
  }

  lemma CongruentChoiceVis(cfg: Config, u: User, u': User, c: nat)
    requires Ok(cfg, u) && Ok(cfg, u')
    requires c < |cfg.choices| && Same(cfg, u, u', ChoiceVisReads(cfg, u, c))
    ensures ChoiceVis(cfg, u, c) == ChoiceVis(cfg, u', c)
    ensures ChoiceVisReads(cfg, u, c) == ChoiceVisReads(cfg, u', c)
  {
    var d := cfg.choices[c];
    assert ChoiceOk(cfg, c);
    CongruentPrompts(cfg, u, u', d.rank, d.prompts);
    if PromptMax(cfg, u, d.rank, d.prompts) == 1 {
      CongruentChoiceKind(cfg, u, u', c);
    }
  }

  lemma CongruentChoiceTri(cfg: Config, u: User, u': User, c: nat)
    requires Ok(cfg, u) && Ok(cfg, u')
    requires c < |cfg.choices| && SameAt(u.mode, u'.mode, c) && Same(cfg, u, u', ChoiceTriReads(cfg, u, c))
    ensures ChoiceTri(cfg, u, c) == ChoiceTri(cfg, u', c)
    ensures ChoiceTriReads(cfg, u, c) == ChoiceTriReads(cfg, u', c)
  {
    assert CVis(c) in ChoiceTriReads(cfg, u, c);
    if RawMode(cfg, u, c) == 1 {
      CongruentChoiceKind(cfg, u, u', c);
    }
  }

  lemma {:induction false} CongruentFirstVisible(cfg: Config, u: User, u': User, c: nat, k: nat)
    requires Ok(cfg, u) && Ok(cfg, u')
    requires c < |cfg.choices| && k <= |cfg.choices[c].syms| && Same(cfg, u, u', FirstVisibleReads(cfg, u, c, k))
    ensures FirstVisible(cfg, u, c, k) == FirstVisible(cfg, u', c, k)
    ensures FirstVisibleReads(cfg, u, c, k) == FirstVisibleReads(cfg, u', c, k)
    decreases |cfg.choices[c].syms| - k
  {
    var d := cfg.choices[c];
    if k < |d.syms| {
      ChoiceSym(cfg, c, d.syms[k]);
      assert SVis(d.syms[k]) in FirstVisibleReads(cfg, u, c, k);
      if SymVis(cfg, u, d.syms[k]) == 0 {
        CongruentFirstVisible(cfg, u, u', c, k + 1);
      }
    }
  }

  lemma {:induction false} CongruentDefaultPick(cfg: Config, u: User, u': User, c: nat, k: nat)
    requires Ok(cfg, u) && Ok(cfg, u')
    requires c < |cfg.choices| && k <= |cfg.choices[c].picks| && Same(cfg, u, u', DefaultPickReads(cfg, u, c, k))
    ensures DefaultPick(cfg, u, c, k) == DefaultPick(cfg, u', c, k)
    ensures DefaultPickReads(cfg, u, c, k) == DefaultPickReads(cfg, u', c, k)
    decreases |cfg.choices[c].picks| - k
  {
    var d := cfg.choices[c];
    if k == |d.picks| {
      CongruentFirstVisible(cfg, u, u', c, 0);
    } else {
      PickOk(cfg, c, k);
      ChoiceSym(cfg, c, d.picks[k].sym);
      DefaultPickStep(cfg, u, c, k);
      DefaultPickStep(cfg, u', c, k);
      CongruentExpr(cfg, u, u', d.rank, d.picks[k].cond);
      if ExprValue(cfg, u, d.rank, d.picks[k].cond) != 0 {
        assert SVis(d.picks[k].sym) in PickReads(cfg, u, c, k);
      }
      if !(ExprValue(cfg, u, d.rank, d.picks[k].cond) != 0 && SymVis(cfg, u, d.picks[k].sym) != 0) {
        CongruentDefaultPick(cfg, u, u', c, k + 1);
      }
    }
  }

  lemma CongruentSelection(cfg: Config, u: User, u': User, c: nat)
    requires Ok(cfg, u) && Ok(cfg, u')
    requires c < |cfg.choices| && SameAt(u.pick, u'.pick, c) && Same(cfg, u, u', SelectionReads(cfg, u, c))
    ensures Selection(cfg, u, c) == Selection(cfg, u', c)
    ensures SelectionReads(cfg, u, c) == SelectionReads(cfg, u', c)
  {
    assert CTri(c) in SelectionReads(cfg, u, c);
    if ChoiceTri(cfg, u, c) == 2 {
      if c in u.pick {
        ChoiceSym(cfg, c, u.pick[c]);
        assert SVis(u.pick[c]) in SelectionReads(cfg, u, c);
      }
      if !(c in u.pick && SymVis(cfg, u, u.pick[c]) != 0) {
        CongruentDefaultPick(cfg, u, u', c, 0);
      }
    }
  }

  lemma {:induction false} CongruentDefaultTri(cfg: Config, u: User, u': User, b: nat, ds: seq<Default>, k: nat)
    requires Ok(cfg, u) && Ok(cfg, u') && k <= |ds|
    requires forall j :: 0 <= j < |ds| ==> ExprBelow(cfg, b, ds[j].value) && ExprBelow(cfg, b, ds[j].cond)
    requires Same(cfg, u, u', DefaultTriReads(cfg, u, b, ds, k))
    ensures DefaultTri(cfg, u, b, ds, k) == DefaultTri(cfg, u', b, ds, k)
    ensures DefaultTriReads(cfg, u, b, ds, k) == DefaultTriReads(cfg, u', b, ds, k)
    decreases |ds| - k
  {
    if k < |ds| {
      CongruentExpr(cfg, u, u', b, ds[k].cond);
      if ExprValue(cfg, u, b, ds[k].cond) != 0 {
        CongruentExpr(cfg, u, u', b, ds[k].value);
      } else {
        CongruentDefaultTri(cfg, u, u', b, ds, k + 1);
      }
    }
  }

  lemma CongruentBaseTri(cfg: Config, u: User, u': User, s: nat)
    requires Ok(cfg, u) && Ok(cfg, u')
    requires s < |cfg.syms| && SameInput(cfg, u, u', STri(s)) && Same(cfg, u, u', BaseTriReads(cfg, u, s))
    ensures BaseTri(cfg, u, s) == BaseTri(cfg, u', s)
    ensures BaseTriReads(cfg, u, s) == BaseTriReads(cfg, u', s)
  {
    var d := cfg.syms[s];
    assert SymOk(cfg, s);
    assert SVis(s) in BaseTriReads(cfg, u, s);
    if d.prompts == [] {
      NoPromptInvisible(cfg, u, s);
    }
    if !(SymVis(cfg, u, s) != 0 && s in u.tri) {
      CongruentDefaultTri(cfg, u, u', d.rank, d.defaults, 0);
      CongruentExpr(cfg, u, u', d.rank, d.weakRevDep);
      if ExprValue(cfg, u, d.rank, d.weakRevDep) != 0 {
        CongruentExpr(cfg, u, u', d.rank, d.directDep);
      }
    }
  }

  lemma CongruentSymTri(cfg: Config, u: User, u': User, s: nat)
    requires Ok(cfg, u) && Ok(cfg, u')
    requires s < |cfg.syms| && SameInput(cfg, u, u', STri(s)) && Same(cfg, u, u', SymTriReads(cfg, u, s))
    ensures SymTri(cfg, u, s) == SymTri(cfg, u', s)
    ensures SymTriReads(cfg, u, s) == SymTriReads(cfg, u', s)
  {
    var d := cfg.syms[s];
    assert SymOk(cfg, s);
    if !BoolTri(d.kind) {
    } else if d.choice.None? {
      CongruentBaseTri(cfg, u, u', s);
      CongruentExpr(cfg, u, u', d.rank, d.revDep);
      if SelectedTri(cfg, u, s).val == 1 {
        CongruentKind(cfg, u, u', s);
        if SymKind(cfg, u, s) != Bool {
          CongruentExpr(cfg, u, u', d.rank, d.weakRevDep);
        }
      }
    } else {
      assert SVis(s) in SymTriReads(cfg, u, s);
      if d.prompts == [] {
        NoPromptInvisible(cfg, u, s);
      }
      if SymVis(cfg, u, s) == 2 {
        assert CSel(d.choice.value) in SymTriReads(cfg, u, s);
      }
    }
  }

  lemma {:induction false} CongruentDefaultStr(cfg: Config, u: User, u': User, b: nat, ds: seq<Default>, k: nat)
    requires Ok(cfg, u) && Ok(cfg, u') && k <= |ds|
    requires forall j :: 0 <= j < |ds| ==>
                           && ExprBelow(cfg, b, ds[j].value) && ExprBelow(cfg, b, ds[j].cond)
                           && ds[j].value.Atom? && IsSymbol(ds[j].value.item)
    requires Same(cfg, u, u', DefaultStrReads(cfg, u, b, ds, k))
    ensures DefaultStr(cfg, u, b, ds, k) == DefaultStr(cfg, u', b, ds, k)
    ensures DefaultStrReads(cfg, u, b, ds, k) == DefaultStrReads(cfg, u', b, ds, k)
    decreases |ds| - k
  {
    if k < |ds| {
      CongruentExpr(cfg, u, u', b, ds[k].cond);
      assert ExprBelow(cfg, b, ds[k].value);
      if ExprValue(cfg, u, b, ds[k].cond) != 0 {
        CongruentText(cfg, u, u', b, ds[k].value.item);
      } else {
        CongruentDefaultStr(cfg, u, u', b, ds, k + 1);
      }
    }
  }

  lemma {:induction false} CongruentRange(cfg: Config, u: User, u': User, b: nat, base: nat, rs: seq<Range>, k: nat)
    requires Ok(cfg, u) && Ok(cfg, u') && k <= |rs|
    requires forall j :: 0 <= j < |rs| ==>
                           && IsSymbol(rs[j].low) && IsSymbol(rs[j].high)
                           && Below(cfg, b, rs[j].low) && Below(cfg, b, rs[j].high) && ExprBelow(cfg, b, rs[j].cond)
    requires Same(cfg, u, u', RangeReads(cfg, u, b, rs, k))
    ensures ActiveRange(cfg, u, b, base, rs, k) == ActiveRange(cfg, u', b, base, rs, k)
    ensures RangeReads(cfg, u, b, rs, k) == RangeReads(cfg, u', b, rs, k)
    decreases |rs| - k
  {
    if k < |rs| {
      CongruentExpr(cfg, u, u', b, rs[k].cond);
      if ExprValue(cfg, u, b, rs[k].cond) != 0 {
        CongruentText(cfg, u, u', b, rs[k].low);
        CongruentText(cfg, u, u', b, rs[k].high);
      } else {
        CongruentRange(cfg, u, u', b, base, rs, k + 1);
      }
    }
  }

  lemma CongruentSymStr(cfg: Config, u: User, u': User, s: nat)
    requires Ok(cfg, u) && Ok(cfg, u')
    requires s < |cfg.syms| && SameInput(cfg, u, u', SStr(s)) && Same(cfg, u, u', SymStrReads(cfg, u, s))
    ensures SymStr(cfg, u, s) == SymStr(cfg, u', s)
    ensures SymStrReads(cfg, u, s) == SymStrReads(cfg, u', s)
  {
    var d := cfg.syms[s];
    assert SymOk(cfg, s);
    if BoolTri(d.kind) {
      assert STri(s) in SymStrReads(cfg, u, s);
    } else if d.kind != Unknown {
      assert SVis(s) in SymStrReads(cfg, u, s);
      if d.prompts == [] {
        NoPromptInvisible(cfg, u, s);
      }
      if IntHex(d.kind) {
        CongruentRange(cfg, u, u', d.rank, Base(d.kind), d.ranges, 0);
      }
      if !UsesText(cfg, u, s) {
        CongruentDefaultStr(cfg, u, u', d.rank, d.defaults, 0);
      }
    }
  }

  lemma CongruentSymAsg(cfg: Config, u: User, u': User, s: nat)
    requires Ok(cfg, u) && Ok(cfg, u')
    requires s < |cfg.syms| && Same(cfg, u, u', SymAsgReads(cfg, u, s))
    ensures SymAssignable(cfg, u, s) == SymAssignable(cfg, u', s)
    ensures SymAsgReads(cfg, u, s) == SymAsgReads(cfg, u', s)
  {
    var d := cfg.syms[s];
    assert SymOk(cfg, s);
    if BoolTri(d.kind) {
      assert SVis(s) in SymAsgReads(cfg, u, s);
      var vis := SymVis(cfg, u, s);
      if vis != 0 {
        CongruentExpr(cfg, u, u', d.rank, d.revDep);
        var rev := ExprValue(cfg, u, d.rank, d.revDep);
        if vis == 2 && !(d.choice.Some? || rev == 2) {
          CongruentKind(cfg, u, u', s);
          if SymKind(cfg, u, s) != Bool {
            CongruentExpr(cfg, u, u', d.rank, d.weakRevDep);
          }
        } else if vis == 1 && rev == 0 {
          CongruentExpr(cfg, u, u', d.rank, d.weakRevDep);
        }
      }
    }
  }

  lemma CongruentChoiceAsg(cfg: Config, u: User, u': User, c: nat)
    requires Ok(cfg, u) && Ok(cfg, u')
    requires c < |cfg.choices| && Same(cfg, u, u', ChoiceAsgReads(cfg, u, c))
    ensures ChoiceAssignable(cfg, u, c) == ChoiceAssignable(cfg, u', c)
    ensures ChoiceAsgReads(cfg, u, c) == ChoiceAsgReads(cfg, u', c)
  {
    assert CVis(c) in ChoiceAsgReads(cfg, u, c);
    if ChoiceVis(cfg, u, c) == 2 {
      CongruentChoiceKind(cfg, u, u', c);
    }
  }

  /** A value depends on nothing but its own part of the user's input and the values it reads. */
  lemma Congruent(cfg: Config, u: User, u': User, q: Slot)
    requires Ok(cfg, u) && Ok(cfg, u') && SlotOk(cfg, q)
    requires SameInput(cfg, u, u', q) && Same(cfg, u, u', Reads(cfg, u, q))
    ensures Fresh(cfg, u, q) == Fresh(cfg, u', q)
    ensures Reads(cfg, u, q) == Reads(cfg, u', q)
  {
    match q
    case SVis(s) => CongruentSymVis(cfg, u, u', s);
    case STri(s) => CongruentSymTri(cfg, u, u', s);
    case SStr(s) => CongruentSymStr(cfg, u, u', s);
    case SAsg(s) => CongruentSymAsg(cfg, u, u', s);
    case CVis(c) => CongruentChoiceVis(cfg, u, u', c);
    case CTri(c) => CongruentChoiceTri(cfg, u, u', c);
    case CSel(c) => CongruentSelection(cfg, u, u', c);
    case CAsg(c) => CongruentChoiceAsg(cfg, u, u', c);
  }
}
