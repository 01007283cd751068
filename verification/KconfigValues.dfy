/** The value of every symbol and choice, computed afresh from what the user has set. */
module KconfigValues {
  import opened KconfigSyntax

  /** A tristate value, and whether the symbol is written to the .config file. */
  datatype TriRes = TriRes(val: Tri, write: bool)

  datatype StrRes = StrRes(val: string, write: bool)

  /** Every symbol of a choice belongs to it and comes right after it. */
  lemma ChoiceSym(cfg: Config, c: nat, s: nat)
    requires WF(cfg) && c < |cfg.choices| && s in cfg.choices[c].syms
    ensures s < |cfg.syms| && cfg.syms[s].choice == Some(c) && cfg.syms[s].rank == cfg.choices[c].rank + 1
  {
    assert ChoiceOk(cfg, c) && SymOk(cfg, s);
  }

  lemma PickOk(cfg: Config, c: nat, k: nat)
    requires WF(cfg) && c < |cfg.choices| && k < |cfg.choices[c].picks|
    ensures ExprBelow(cfg, cfg.choices[c].rank, cfg.choices[c].picks[k].cond)
    ensures cfg.choices[c].picks[k].sym in cfg.choices[c].syms
  {
    assert ChoiceOk(cfg, c);
  }

  /* Strings and numbers */

  function Strcmp(s1: string, s2: string): int {
    if s1 == s2 then 0
    else if s1 == [] then -1
    else if s2 == [] then 1
    else if s1[0] != s2[0] then (if s1[0] > s2[0] then 1 else -1)
    else Strcmp(s1[1..], s2[1..])
  }

  function Base(k: Kind): nat { if k == Hex then 16 else if k == Int then 10 else 0 }

  function Number(cfg: Config, text: string, base: nat): int {
    match cfg.toInt(text, base)
    case Some(n) => n
    case None => 0
  }

  function Holds(op: RelOp, comp: int): Tri {
    if (match op
        case Equal => comp == 0
        case Unequal => comp != 0
        case Less => comp < 0
        case LessEqual => comp <= 0
        case Greater => comp > 0
        case GreaterEqual => comp >= 0) then 2 else 0
  }

  /* Expressions */

  function ItemTri(cfg: Config, u: User, b: nat, i: Item): Tri
    requires Ok(cfg, u) && Below(cfg, b, i)
    decreases b, 0
  {
    match i
    case Sym(s) => SymTri(cfg, u, s).val
    case Choice(c) => ChoiceTri(cfg, u, c)
    case TriConst(t) => t
    case StrConst(_) => 0
  }

  function ItemStr(cfg: Config, u: User, b: nat, i: Item): string
    requires Ok(cfg, u) && Below(cfg, b, i) && IsSymbol(i)
    decreases b, 0
  {
    match i
    case Sym(s) => SymStr(cfg, u, s).val
    case TriConst(t) => TriText(t)
    case StrConst(text) => text
  }

  function ItemNum(cfg: Config, u: User, b: nat, i: Item): Option<int>
    requires Ok(cfg, u) && Below(cfg, b, i) && IsSymbol(i)
    decreases b, 1
  {
    if BoolTri(KindOf(cfg, i)) then Some(ItemTri(cfg, u, b, i))
    else cfg.toInt(ItemStr(cfg, u, b, i), Base(KindOf(cfg, i)))
  }

  /** The operands are compared as numbers unless both are strings or one is not a number. */
  predicate AsText(cfg: Config, u: User, b: nat, x: Item, y: Item)
    requires Ok(cfg, u) && Below(cfg, b, x) && Below(cfg, b, y) && IsSymbol(x) && IsSymbol(y)
    decreases b, 2
  {
    || (KindOf(cfg, x) == Text && KindOf(cfg, y) == Text)
    || ItemNum(cfg, u, b, x).None?
    || ItemNum(cfg, u, b, y).None?
  }

  function Compare(cfg: Config, u: User, b: nat, x: Item, y: Item): int
    requires Ok(cfg, u) && Below(cfg, b, x) && Below(cfg, b, y) && IsSymbol(x) && IsSymbol(y)
    decreases b, 3
  {
    if AsText(cfg, u, b, x, y) then Strcmp(ItemStr(cfg, u, b, x), ItemStr(cfg, u, b, y))
    else ItemNum(cfg, u, b, x).value - ItemNum(cfg, u, b, y).value
  }

  function ExprValue(cfg: Config, u: User, b: nat, e: Expr): Tri
    requires Ok(cfg, u) && ExprBelow(cfg, b, e)
    decreases b, 4, e
  {
    match e
    case Atom(i) => ItemTri(cfg, u, b, i)
    case And(l, r) => Min(ExprValue(cfg, u, b, l), ExprValue(cfg, u, b, r))
    case Or(l, r) => Max(ExprValue(cfg, u, b, l), ExprValue(cfg, u, b, r))
    case Not(f) => 2 - ExprValue(cfg, u, b, f)
    case Rel(op, x, y) => Holds(op, Compare(cfg, u, b, x, y))
  }

  /* Visibility and types */

  function PromptMax(cfg: Config, u: User, b: nat, ps: seq<Expr>): Tri
    requires Ok(cfg, u) && forall k :: 0 <= k < |ps| ==> ExprBelow(cfg, b, ps[k])
    decreases b, 5, |ps|
  {
    if ps == [] then 0
    else Max(PromptMax(cfg, u, b, ps[..|ps| - 1]), ExprValue(cfg, u, b, ps[|ps| - 1]))
  }

  /** The type of a symbol, with tristate turned into bool in a y-mode choice or without modules. */
  function SymKind(cfg: Config, u: User, s: nat): Kind
    requires Ok(cfg, u) && s < |cfg.syms|
    decreases cfg.syms[s].rank, 0
  {
    var d := cfg.syms[s];
    assert SymOk(cfg, s);
    if && d.kind == Tristate
       && ((d.choice.Some? && ChoiceTri(cfg, u, d.choice.value) == 2) || SymTri(cfg, u, cfg.modules).val == 0)
    then Bool else d.kind
  }

  function ChoiceKind(cfg: Config, u: User, c: nat): Kind
    requires Ok(cfg, u) && c < |cfg.choices|
    decreases cfg.choices[c].rank, 0
  {
    var d := cfg.choices[c];
    assert ChoiceOk(cfg, c);
    if d.kind == Tristate && SymTri(cfg, u, cfg.modules).val == 0 then Bool else d.kind
  }

  function SymVis(cfg: Config, u: User, s: nat): Tri
    requires Ok(cfg, u) && s < |cfg.syms|
    decreases cfg.syms[s].rank, 6
  {
    var d := cfg.syms[s];
    assert SymOk(cfg, s);
    var vis := PromptMax(cfg, u, d.rank, d.prompts);
    if d.choice.Some? && cfg.choices[d.choice.value].kind == Tristate && d.kind != Tristate
       && ChoiceTri(cfg, u, d.choice.value) != 2 then 0
    else if d.choice.Some? && d.kind == Tristate && vis == 1 && ChoiceTri(cfg, u, d.choice.value) == 2 then 0
    else if vis == 1 && SymKind(cfg, u, s) != Tristate then 2
    else vis
  }

  function ChoiceVis(cfg: Config, u: User, c: nat): Tri
    requires Ok(cfg, u) && c < |cfg.choices|
    decreases cfg.choices[c].rank, 6
  {
    var d := cfg.choices[c];
    assert ChoiceOk(cfg, c);
    var vis := PromptMax(cfg, u, d.rank, d.prompts);
    if vis == 1 && ChoiceKind(cfg, u, c) != Tristate then 2 else vis
  }

  /* Choices */

  /** The mode before bool choices are promoted: at least m unless the choice is optional, and at
      most the visibility. */
  function RawMode(cfg: Config, u: User, c: nat): Tri
    requires Ok(cfg, u) && c < |cfg.choices|
    decreases cfg.choices[c].rank, 7
  {
    var low := if cfg.choices[c].optional then 0 else 1;
    Min(if c in u.mode then Max(low, u.mode[c]) else low, ChoiceVis(cfg, u, c))
  }

  function ChoiceTri(cfg: Config, u: User, c: nat): Tri
    requires Ok(cfg, u) && c < |cfg.choices|
    decreases cfg.choices[c].rank, 8
  {
    var val := RawMode(cfg, u, c);
    if val == 1 && ChoiceKind(cfg, u, c) == Bool then 2 else val
  }

  function FirstVisible(cfg: Config, u: User, c: nat, k: nat): Option<nat>
    requires Ok(cfg, u) && c < |cfg.choices| && k <= |cfg.choices[c].syms|
    decreases cfg.choices[c].rank + 1, 7, |cfg.choices[c].syms| - k
  {
    var d := cfg.choices[c];
    assert ChoiceOk(cfg, c);
    if k == |d.syms| then None
    else
      assert d.syms[k] in d.syms && SymOk(cfg, d.syms[k]);
      if SymVis(cfg, u, d.syms[k]) != 0 then Some(d.syms[k])
      else FirstVisible(cfg, u, c, k + 1)
  }

  /** The selection made by the defaults from position `k` on, or the first visible symbol. */
  function DefaultPick(cfg: Config, u: User, c: nat, k: nat): Option<nat>
    requires Ok(cfg, u) && c < |cfg.choices| && k <= |cfg.choices[c].picks|
    decreases cfg.choices[c].rank + 1, 8, |cfg.choices[c].picks| - k
  {
    var d := cfg.choices[c];
    assert ChoiceOk(cfg, c);
    if k == |d.picks| then FirstVisible(cfg, u, c, 0)
    else
      assert d.picks[k].sym in d.syms && SymOk(cfg, d.picks[k].sym);
      if ExprValue(cfg, u, d.rank, d.picks[k].cond) != 0 && SymVis(cfg, u, d.picks[k].sym) != 0
      then Some(d.picks[k].sym)
      else DefaultPick(cfg, u, c, k + 1)
  }

  function Selection(cfg: Config, u: User, c: nat): Option<nat>
    requires Ok(cfg, u) && c < |cfg.choices|
    decreases cfg.choices[c].rank + 1, 9
  {
    assert ChoiceOk(cfg, c);
    if ChoiceTri(cfg, u, c) != 2 then None
    else if c in u.pick && (assert SymOk(cfg, u.pick[c]); SymVis(cfg, u, u.pick[c]) != 0) then Some(u.pick[c])
    else DefaultPick(cfg, u, c, 0)
  }

  /* Symbols */

  /** The first default from position `k` on whose condition holds. */
  function DefaultTri(cfg: Config, u: User, b: nat, ds: seq<Default>, k: nat): TriRes
    requires Ok(cfg, u) && k <= |ds|
    requires forall j :: 0 <= j < |ds| ==> ExprBelow(cfg, b, ds[j].value) && ExprBelow(cfg, b, ds[j].cond)
    decreases b, 5, |ds| - k
  {
    if k == |ds| then TriRes(0, false)
    else
      var cond := ExprValue(cfg, u, b, ds[k].cond);
      if cond != 0 then
        var val := Min(ExprValue(cfg, u, b, ds[k].value), cond);
        TriRes(val, val != 0)
      else DefaultTri(cfg, u, b, ds, k + 1)
  }

  /** The value of a non-choice symbol before selects: the user's, or that of defaults and implies. */
  function BaseTri(cfg: Config, u: User, s: nat): TriRes
    requires Ok(cfg, u) && s < |cfg.syms|
    decreases cfg.syms[s].rank, 7
  {
    var d := cfg.syms[s];
    assert SymOk(cfg, s);
    var vis := SymVis(cfg, u, s);
    if vis != 0 && s in u.tri then TriRes(Min(u.tri[s], vis), true)
    else
      var def := DefaultTri(cfg, u, d.rank, d.defaults, 0);
      var weak := ExprValue(cfg, u, d.rank, d.weakRevDep);
      if weak != 0 && ExprValue(cfg, u, d.rank, d.directDep) != 0 then TriRes(Max(weak, def.val), true)
      else TriRes(def.val, vis != 0 || def.write)
  }

  /** The value of a non-choice symbol after selects, before m is promoted to y. */
  function SelectedTri(cfg: Config, u: User, s: nat): TriRes
    requires Ok(cfg, u) && s < |cfg.syms|
    decreases cfg.syms[s].rank, 8
  {
    var d := cfg.syms[s];
    assert SymOk(cfg, s);
    var base := BaseTri(cfg, u, s);
    var rev := ExprValue(cfg, u, d.rank, d.revDep);
    if rev != 0 then TriRes(Max(rev, base.val), true) else base
  }

  function SymTri(cfg: Config, u: User, s: nat): TriRes
    requires Ok(cfg, u) && s < |cfg.syms|
    decreases cfg.syms[s].rank, 10
  {
    var d := cfg.syms[s];
    assert SymOk(cfg, s);
    if !BoolTri(d.kind) then TriRes(0, false)
    else if d.choice.None? then
      var sel := SelectedTri(cfg, u, s);
      if sel.val == 1 && (SymKind(cfg, u, s) == Bool || ExprValue(cfg, u, d.rank, d.weakRevDep) == 2)
      then sel.(val := 2) else sel
    else
      var vis := SymVis(cfg, u, s);
      if vis == 2 then TriRes(if Selection(cfg, u, d.choice.value) == Some(s) then 2 else 0, true)
      else TriRes(if vis != 0 && s in u.tri && u.tri[s] != 0 then 1 else 0, vis != 0)
  }

  function DefaultStr(cfg: Config, u: User, b: nat, ds: seq<Default>, k: nat): Option<string>
    requires Ok(cfg, u) && k <= |ds|
    requires forall j :: 0 <= j < |ds| ==>
                           && ExprBelow(cfg, b, ds[j].value) && ExprBelow(cfg, b, ds[j].cond)
                           && ds[j].value.Atom? && IsSymbol(ds[j].value.item)
    decreases b, 5, |ds| - k
  {
    if k == |ds| then None
    else if ExprValue(cfg, u, b, ds[k].cond) != 0 then
      assert ExprBelow(cfg, b, ds[k].value);
      Some(ItemStr(cfg, u, b, ds[k].value.item))
    else DefaultStr(cfg, u, b, ds, k + 1)
  }

  function ActiveRange(cfg: Config, u: User, b: nat, base: nat, rs: seq<Range>, k: nat): Option<(int, int)>
    requires Ok(cfg, u) && k <= |rs|
    requires forall j :: 0 <= j < |rs| ==>
                           && IsSymbol(rs[j].low) && IsSymbol(rs[j].high)
                           && Below(cfg, b, rs[j].low) && Below(cfg, b, rs[j].high) && ExprBelow(cfg, b, rs[j].cond)
    decreases b, 5, |rs| - k
  {
    if k == |rs| then None
    else if ExprValue(cfg, u, b, rs[k].cond) != 0 then
      Some((Number(cfg, ItemStr(cfg, u, b, rs[k].low), base), Number(cfg, ItemStr(cfg, u, b, rs[k].high), base)))
    else ActiveRange(cfg, u, b, base, rs, k + 1)
  }

  predicate InRange(range: Option<(int, int)>, n: int) {
    range.Some? ==> range.value.0 <= n <= range.value.1
  }

  /** A default, clamped into the active range and rewritten only when it is clamped. */
  function Clamped(cfg: Config, kind: Kind, range: Option<(int, int)>, def: Option<string>): string {
    var text := if def.Some? then def.value else "";
    var n := if def.Some? then Number(cfg, text, Base(kind)) else 0;
    if range.Some? && n < range.value.0 then cfg.numText(range.value.0, kind == Hex)
    else if range.Some? && n > range.value.1 then cfg.numText(range.value.1, kind == Hex)
    else text
  }

  function SymStr(cfg: Config, u: User, s: nat): StrRes
    requires Ok(cfg, u) && s < |cfg.syms|
    decreases cfg.syms[s].rank, 11
  {
    var d := cfg.syms[s];
    assert SymOk(cfg, s);
    if BoolTri(d.kind) then
      var tri := SymTri(cfg, u, s);
      StrRes(TriText(tri.val), tri.write)
    else if d.kind == Unknown then StrRes(d.name, false)
    else
      var vis := SymVis(cfg, u, s);
      if d.kind == Text then
        if vis != 0 && s in u.text then StrRes(u.text[s], true)
        else
          var def := DefaultStr(cfg, u, d.rank, d.defaults, 0);
          StrRes(if def.Some? then def.value else "", vis != 0 || def.Some?)
      else
        var range := ActiveRange(cfg, u, d.rank, Base(d.kind), d.ranges, 0);
        if vis != 0 && s in u.text && u.text[s] != "" && InRange(range, Number(cfg, u.text[s], Base(d.kind)))
        then StrRes(u.text[s], true)
        else
          var def := DefaultStr(cfg, u, d.rank, d.defaults, 0);
          StrRes(Clamped(cfg, d.kind, range, def), vis != 0 || def.Some?)
  }

  /* Assignable values */

  function SymAssignable(cfg: Config, u: User, s: nat): seq<Tri>
    requires Ok(cfg, u) && s < |cfg.syms|
  {
    var d := cfg.syms[s];
    assert SymOk(cfg, s);
    if !BoolTri(d.kind) then []
    else
      var vis := SymVis(cfg, u, s);
      if vis == 0 then []
      else
        var rev := ExprValue(cfg, u, d.rank, d.revDep);
        if vis == 2 then
          if d.choice.Some? then [2]
          else if rev == 2 then [2]
          else
            var promoted := SymKind(cfg, u, s) == Bool || ExprValue(cfg, u, d.rank, d.weakRevDep) == 2;
            if rev == 0 then (if promoted then [0, 2] else [0, 1, 2])
            else if promoted then [2] else [1, 2]
        else if rev == 0 then
          (if ExprValue(cfg, u, d.rank, d.weakRevDep) != 2 then [0, 1] else [0, 2])
        else if rev == 2 then [2] else [1]
  }

  function ChoiceAssignable(cfg: Config, u: User, c: nat): seq<Tri>
    requires Ok(cfg, u) && c < |cfg.choices|
  {
    var vis := ChoiceVis(cfg, u, c);
    var optional := cfg.choices[c].optional;
    if vis == 0 then []
    else if vis == 2 then
      var isBool := ChoiceKind(cfg, u, c) == Bool;
      if !optional then (if isBool then [2] else [1, 2])
      else if isBool then [0, 2] else [0, 1, 2]
    else if optional then [0, 1] else [1]
  }
}
