/** Symbols, choices, expressions and user input of a Kconfig configuration.

    Symbols and choices are named by their position in the configuration. Constant symbols (the
    three tristate constants and quoted strings) are items of their own, because their values never
    change and they are never invalidated. */
module KconfigSyntax {

  datatype Option<+T> = None | Some(value: T)

  /** n, m and y as 0, 1 and 2. */
  type Tri = t: int | 0 <= t <= 2

  datatype Kind = Unknown | Bool | Tristate | Text | Int | Hex

  datatype Item = Sym(s: nat) | Choice(c: nat) | TriConst(tri: Tri) | StrConst(text: string)

  datatype RelOp = Equal | Unequal | Less | LessEqual | Greater | GreaterEqual

  datatype Expr =
    | Atom(item: Item)
    | And(l: Expr, r: Expr)
    | Or(l: Expr, r: Expr)
    | Not(e: Expr)
    | Rel(op: RelOp, a: Item, b: Item)

  /** A default of a symbol: its value and the condition it is used under. */
  datatype Default = Default(value: Expr, cond: Expr)

  /** A range of an int or hex symbol. */
  datatype Range = Range(low: Item, high: Item, cond: Expr)

  /** A default selection of a choice. */
  datatype Pick = Pick(sym: nat, cond: Expr)

  /** `prompts` holds the conditions of the prompts, one for each menu node that has one.
      `rank` is the position of the symbol in a dependency order: see WF. */
  datatype SymDef = SymDef(
    name: string,
    kind: Kind,
    choice: Option<nat>,
    prompts: seq<Expr>,
    defaults: seq<Default>,
    ranges: seq<Range>,
    revDep: Expr,
    weakRevDep: Expr,
    directDep: Expr,
    rank: nat)

  datatype ChoiceDef = ChoiceDef(
    kind: Kind,
    optional: bool,
    prompts: seq<Expr>,
    picks: seq<Pick>,
    syms: seq<nat>,
    rank: nat)

  /** `toInt` is Python's int(text, base), None where it raises ValueError; `numText` is str() or,
      when its second argument holds, hex(). */
  datatype Config = Config(
    syms: seq<SymDef>,
    choices: seq<ChoiceDef>,
    modules: nat,
    toInt: (string, nat) -> Option<int>,
    numText: (int, bool) -> string)

  /** What the user has set: values of bool and tristate symbols, texts of the others, modes of
      choices, and the symbols picked in choices. */
  datatype User = User(tri: map<nat, Tri>, text: map<nat, string>, mode: map<nat, Tri>, pick: map<nat, nat>)

  predicate BoolTri(k: Kind) { k == Bool || k == Tristate }

  predicate IntHex(k: Kind) { k == Int || k == Hex }

  function Min(a: Tri, b: Tri): Tri { if a < b then a else b }

  function Max(a: Tri, b: Tri): Tri { if a < b then b else a }

  function TriText(t: Tri): string { if t == 0 then "n" else if t == 1 then "m" else "y" }

  /** The kind of an item; quoted constants have no type. */
  function KindOf(cfg: Config, i: Item): Kind
    requires Known(cfg, i)
  {
    match i
    case Sym(s) => cfg.syms[s].kind
    case Choice(c) => cfg.choices[c].kind
    case TriConst(_) => Tristate
    case StrConst(_) => Unknown
  }

  /** The item exists in the configuration. */
  predicate Known(cfg: Config, i: Item) {
    match i
    case Sym(s) => s < |cfg.syms|
    case Choice(c) => c < |cfg.choices|
    case _ => true
  }

  predicate IsSymbol(i: Item) { !i.Choice? }

  /** The item exists and comes before position `b` in the dependency order. */
  predicate Below(cfg: Config, b: nat, i: Item) {
    match i
    case Sym(s) => s < |cfg.syms| && cfg.syms[s].rank < b
    case Choice(c) => c < |cfg.choices| && cfg.choices[c].rank < b
    case _ => true
  }

  predicate ExprBelow(cfg: Config, b: nat, e: Expr) {
    match e
    case Atom(i) => Below(cfg, b, i)
    case And(l, r) => ExprBelow(cfg, b, l) && ExprBelow(cfg, b, r)
    case Or(l, r) => ExprBelow(cfg, b, l) && ExprBelow(cfg, b, r)
    case Not(f) => ExprBelow(cfg, b, f)
    case Rel(_, x, y) => IsSymbol(x) && IsSymbol(y) && Below(cfg, b, x) && Below(cfg, b, y)
  }

  /** All items that occur in an expression. */
  function Items(e: Expr): set<Item> {
    match e
    case Atom(i) => {i}
    case And(l, r) => Items(l) + Items(r)
    case Or(l, r) => Items(l) + Items(r)
    case Not(f) => Items(f)
    case Rel(_, x, y) => {x, y}
  }

  /** All items that the properties of a symbol mention. */
  function SymItems(cfg: Config, s: nat): set<Item>
    requires s < |cfg.syms|
  {
    var d := cfg.syms[s];
    (set k, i | 0 <= k < |d.prompts| && i in Items(d.prompts[k]) :: i)
    + (set k, i | 0 <= k < |d.defaults| && i in Items(d.defaults[k].value) + Items(d.defaults[k].cond) :: i)
    + (set k, i | 0 <= k < |d.ranges| && i in {d.ranges[k].low, d.ranges[k].high} + Items(d.ranges[k].cond) :: i)
    + Items(d.revDep) + Items(d.weakRevDep) + Items(d.directDep)
  }

  /** All items that the prompts and the defaults of a choice mention. */
  function ChoiceItems(cfg: Config, c: nat): set<Item>
    requires c < |cfg.choices|
  {
    var d := cfg.choices[c];
    (set k, i | 0 <= k < |d.prompts| && i in Items(d.prompts[k]) :: i)
    + (set k, i | 0 <= k < |d.picks| && i in Items(d.picks[k].cond) :: i)
  }

  /** The symbols and choices that immediately depend on item `i`. A choice also depends on its own
      symbols. */
  function Dependents(cfg: Config, i: Item): set<Item> {
    (set s | 0 <= s < |cfg.syms| && i in SymItems(cfg, s) :: Sym(s))
    + (set c | 0 <= c < |cfg.choices| &&
        (i in ChoiceItems(cfg, c) || (i.Sym? && i.s in cfg.choices[c].syms)) :: Choice(c))
  }

  /** A symbol only mentions items that come before it. A choice symbol comes right after its
      choice and mentions it, as the choice is propagated to the conditions of its symbols. A
      tristate symbol comes after the symbol MODULES, on which its type depends. */
  ghost predicate SymOk(cfg: Config, s: nat)
    requires s < |cfg.syms|
  {
    var d := cfg.syms[s];
    && (forall k :: 0 <= k < |d.prompts| ==> ExprBelow(cfg, d.rank, d.prompts[k]))
    && (forall k :: 0 <= k < |d.defaults| ==>
          && ExprBelow(cfg, d.rank, d.defaults[k].value)
          && ExprBelow(cfg, d.rank, d.defaults[k].cond)
          && (!BoolTri(d.kind) ==> d.defaults[k].value.Atom? && IsSymbol(d.defaults[k].value.item)))
    && (forall k :: 0 <= k < |d.ranges| ==>
          && IsSymbol(d.ranges[k].low) && IsSymbol(d.ranges[k].high)
          && Below(cfg, d.rank, d.ranges[k].low)
          && Below(cfg, d.rank, d.ranges[k].high)
          && ExprBelow(cfg, d.rank, d.ranges[k].cond))
    && ExprBelow(cfg, d.rank, d.revDep)
    && ExprBelow(cfg, d.rank, d.weakRevDep)
    && ExprBelow(cfg, d.rank, d.directDep)
    && (d.kind == Tristate ==> Below(cfg, d.rank, Sym(cfg.modules)))
    && (d.choice.Some? ==>
          && d.choice.value < |cfg.choices|
          && s in cfg.choices[d.choice.value].syms
          && Choice(d.choice.value) in SymItems(cfg, s)
          && d.rank == cfg.choices[d.choice.value].rank + 1)
  }

  ghost predicate ChoiceOk(cfg: Config, c: nat)
    requires c < |cfg.choices|
  {
    var d := cfg.choices[c];
    && (forall k :: 0 <= k < |d.prompts| ==> ExprBelow(cfg, d.rank, d.prompts[k]))
    && (forall k :: 0 <= k < |d.picks| ==>
          && ExprBelow(cfg, d.rank, d.picks[k].cond)
          && d.picks[k].sym in d.syms)
    && (forall s :: s in d.syms ==> s < |cfg.syms| && cfg.syms[s].choice == Some(c))
    && (d.kind == Tristate ==> Below(cfg, d.rank, Sym(cfg.modules)))
  }

  /** The order of evaluation: KconfigLoopOrder says when the dependency loop check leaves one. */
  ghost predicate WF(cfg: Config) {
    && cfg.modules < |cfg.syms|
    && (forall s :: 0 <= s < |cfg.syms| ==> SymOk(cfg, s))
    && (forall c :: 0 <= c < |cfg.choices| ==> ChoiceOk(cfg, c))
  }

  /** User values belong to existing items, and the pick of a choice is one of its symbols. */
  ghost predicate UserOk(cfg: Config, u: User) {
    && (forall s :: s in u.tri || s in u.text ==> s < |cfg.syms|)
    && (forall c :: c in u.mode ==> c < |cfg.choices|)
    && forall c :: c in u.pick ==> c < |cfg.choices| && u.pick[c] in cfg.choices[c].syms
  }

  ghost predicate Ok(cfg: Config, u: User) {
    WF(cfg) && UserOk(cfg, u)
  }
}
