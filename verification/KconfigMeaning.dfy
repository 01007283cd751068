/** What the values of symbols and choices mean, said in terms of prompts, defaults, ranges, selects and
    implies. */
module KconfigMeaning {
  import opened KconfigSyntax
  import opened KconfigValues

  /* Expressions */

  predicate Smaller(v: Tri, a: Tri, b: Tri) { v <= a && v <= b && (v == a || v == b) }

  predicate Larger(v: Tri, a: Tri, b: Tri) { a <= v && b <= v && (v == a || v == b) }

  /** The text of `a` comes before that of `b` in lexicographic order: it is a proper prefix, or has the
      smaller character where the two first differ. */
  ghost predicate TextBefore(a: string, b: string) {
    exists k: nat :: DivergeAt(a, b, k)
  }

  ghost predicate DivergeAt(a: string, b: string, k: nat) {
    k <= |a| && k < |b| && (forall i :: 0 <= i < k ==> a[i] == b[i]) && (k == |a| || a[k] < b[k])
  }

  lemma {:induction false} StrcmpIs(a: string, b: string)
    ensures Strcmp(a, b) == 0 <==> a == b
    ensures Strcmp(a, b) < 0 ==> TextBefore(a, b)
    ensures Strcmp(a, b) > 0 ==> TextBefore(b, a)
  {
    if a == b {
    } else if a == [] {
      assert DivergeAt(a, b, 0);
    } else if b == [] {
      assert DivergeAt(b, a, 0);
    } else if a[0] != b[0] {
      assert DivergeAt(a, b, 0) || DivergeAt(b, a, 0);
    } else {
      assert a == [a[0]] + a[1..] && b == [b[0]] + b[1..];
      StrcmpIs(a[1..], b[1..]);
      if TextBefore(a[1..], b[1..]) {
        LaterDivergence(a, b);
      }
      if TextBefore(b[1..], a[1..]) {
        LaterDivergence(b, a);
      }
    }
  }

  lemma LaterDivergence(a: string, b: string)
    requires a != [] && b != [] && a[0] == b[0] && TextBefore(a[1..], b[1..])
    ensures TextBefore(a, b)
  {
    var k: nat :| DivergeAt(a[1..], b[1..], k);
    var next := k + 1;
    forall i | 0 <= i < next
      ensures a[i] == b[i]
    {
      if i > 0 {
        assert a[1..][i - 1] == b[1..][i - 1];
      }
    }
    assert DivergeAt(a, b, next);
  }

  /** Texts come before others in one direction only. */
  lemma TextOrder(a: string, b: string)
    requires TextBefore(a, b)
    ensures !TextBefore(b, a) && a != b
  {
  }

  /** What an operand counts as a number: n, m and y count as 0, 1 and 2, and texts are read in the base
      of their type. */
  ghost predicate CountsAs(cfg: Config, u: User, b: nat, i: Item, n: int)
    requires Ok(cfg, u) && Below(cfg, b, i) && IsSymbol(i)
  {
    var kind := KindOf(cfg, i);
    if kind == Bool || kind == Tristate then ItemTri(cfg, u, b, i) == n
    else
      cfg.toInt(ItemStr(cfg, u, b, i), if kind == Hex then 16 else if kind == Int then 10 else 0) == Some(n)
  }

  /** The operands are compared as texts: both are strings, or one is not a number. */
  ghost predicate ComparedAsText(cfg: Config, u: User, b: nat, x: Item, y: Item)
    requires Ok(cfg, u) && Below(cfg, b, x) && Below(cfg, b, y) && IsSymbol(x) && IsSymbol(y)
  {
    || (KindOf(cfg, x) == Text && KindOf(cfg, y) == Text)
    || (forall n :: !CountsAs(cfg, u, b, x, n))
    || (forall n :: !CountsAs(cfg, u, b, y, n))
  }

  /** The relations as they hold of two values that are equal, in order or in the opposite order. */
  predicate RelTrue(op: RelOp, same: bool, before: bool) {
    match op
    case Equal => same
    case Unequal => !same
    case Less => before
    case LessEqual => before || same
    case Greater => !before && !same
    case GreaterEqual => !before
  }

  lemma CountsAsIs(cfg: Config, u: User, b: nat, i: Item)
    requires Ok(cfg, u) && Below(cfg, b, i) && IsSymbol(i)
    ensures forall n :: CountsAs(cfg, u, b, i, n) <==> ItemNum(cfg, u, b, i) == Some(n)
  {
  }

  /** Symbols and choices have the type they are given, n, m and y are tristate, and other constants have none. */
  lemma TypeMeaning(cfg: Config, i: Item)
    requires Known(cfg, i)
    ensures i.Sym? ==> KindOf(cfg, i) == cfg.syms[i.s].kind
    ensures i.Choice? ==> KindOf(cfg, i) == cfg.choices[i.c].kind
    ensures i.TriConst? ==> KindOf(cfg, i) == Tristate
    ensures i.StrConst? ==> KindOf(cfg, i) == Unknown
  {
  }

  /** && is the smaller value, || the larger, ! turns n and y around, and a comparison is y or n. */
  lemma ExprMeaning(cfg: Config, u: User, b: nat, e: Expr)
    requires Ok(cfg, u) && ExprBelow(cfg, b, e)
    ensures e.And? ==> Smaller(ExprValue(cfg, u, b, e), ExprValue(cfg, u, b, e.l), ExprValue(cfg, u, b, e.r))
    ensures e.Or? ==> Larger(ExprValue(cfg, u, b, e), ExprValue(cfg, u, b, e.l), ExprValue(cfg, u, b, e.r))
    ensures e.Not? ==> ExprValue(cfg, u, b, e) + ExprValue(cfg, u, b, e.e) == 2
    ensures e.Rel? ==> ExprValue(cfg, u, b, e) in {0, 2}
    ensures e == Atom(TriConst(2)) ==> ExprValue(cfg, u, b, e) == 2
    ensures e == Atom(TriConst(1)) ==> ExprValue(cfg, u, b, e) == 1
    ensures e == Atom(TriConst(0)) ==> ExprValue(cfg, u, b, e) == 0
    ensures e.Atom? && e.item.StrConst? ==> ExprValue(cfg, u, b, e) == 0
    ensures e.Atom? && e.item.Sym? ==> ExprValue(cfg, u, b, e) == SymTri(cfg, u, e.item.s).val
    ensures e.Atom? && e.item.Choice? ==> ExprValue(cfg, u, b, e) == ChoiceTri(cfg, u, e.item.c)
  {
  }

  /** A comparison as numbers holds just when it holds of the numbers. */
  lemma NumbersCompared(cfg: Config, u: User, b: nat, op: RelOp, x: Item, y: Item, n1: int, n2: int)
    requires Ok(cfg, u) && ExprBelow(cfg, b, Rel(op, x, y))
    requires !ComparedAsText(cfg, u, b, x, y) && CountsAs(cfg, u, b, x, n1) && CountsAs(cfg, u, b, y, n2)
    ensures ExprValue(cfg, u, b, Rel(op, x, y)) == 2 <==> RelTrue(op, n1 == n2, n1 < n2)
  {
    CountsAsIs(cfg, u, b, x);
    CountsAsIs(cfg, u, b, y);
    assert !AsText(cfg, u, b, x, y) && Compare(cfg, u, b, x, y) == n1 - n2;
  }

  /** A comparison as texts holds just when it holds of the texts in lexicographic order. */
  lemma TextsCompared(cfg: Config, u: User, b: nat, op: RelOp, x: Item, y: Item)
    requires Ok(cfg, u) && ExprBelow(cfg, b, Rel(op, x, y)) && ComparedAsText(cfg, u, b, x, y)
    ensures var t1, t2 := ItemStr(cfg, u, b, x), ItemStr(cfg, u, b, y);
            ExprValue(cfg, u, b, Rel(op, x, y)) == 2 <==> RelTrue(op, t1 == t2, TextBefore(t1, t2))
  {
    CountsAsIs(cfg, u, b, x);
    CountsAsIs(cfg, u, b, y);
    if ItemNum(cfg, u, b, x).Some? && ItemNum(cfg, u, b, y).Some? {
      assert CountsAs(cfg, u, b, x, ItemNum(cfg, u, b, x).value);
      assert CountsAs(cfg, u, b, y, ItemNum(cfg, u, b, y).value);
    }
    assert AsText(cfg, u, b, x, y);
    var t1, t2 := ItemStr(cfg, u, b, x), ItemStr(cfg, u, b, y);
    StrcmpIs(t1, t2);
    if TextBefore(t1, t2) {
      TextOrder(t1, t2);
    }
    if TextBefore(t2, t1) {
      TextOrder(t2, t1);
    }
  }

  /* Visibility */

  function CondValue(cfg: Config, u: User, b: nat, e: Expr): Tri
    requires Ok(cfg, u)
  {
    if ExprBelow(cfg, b, e) then ExprValue(cfg, u, b, e) else 0
  }

  /** `p` is the largest of the values of the prompts' conditions, or n if there is no prompt. */
  ghost predicate Brightest(cfg: Config, u: User, b: nat, ps: seq<Expr>, p: Tri)
    requires Ok(cfg, u)
  {
    && (forall k :: 0 <= k < |ps| ==> CondValue(cfg, u, b, ps[k]) <= p)
    && (p == 0 || exists k :: 0 <= k < |ps| && CondValue(cfg, u, b, ps[k]) == p)
  }

  lemma {:induction false} PromptMaxIs(cfg: Config, u: User, b: nat, ps: seq<Expr>)
    requires Ok(cfg, u) && forall k :: 0 <= k < |ps| ==> ExprBelow(cfg, b, ps[k])
    ensures Brightest(cfg, u, b, ps, PromptMax(cfg, u, b, ps))
  {
    if ps != [] {
      var last := |ps| - 1;
      var init := ps[..last];
      PromptMaxIs(cfg, u, b, init);
      var p, q := PromptMax(cfg, u, b, ps), PromptMax(cfg, u, b, init);
      forall k | 0 <= k < |ps|
        ensures CondValue(cfg, u, b, ps[k]) <= p
      {
        if k < last {
          assert CondValue(cfg, u, b, init[k]) <= q;
        }
      }
      if p != 0 && p != ExprValue(cfg, u, b, ps[last]) {
        var k :| 0 <= k < |init| && CondValue(cfg, u, b, init[k]) == q;
        assert CondValue(cfg, u, b, ps[k]) == p;
      } else {
        assert CondValue(cfg, u, b, ps[last]) <= p;
      }
    }
  }

  predicate ModulesOff(cfg: Config, u: User)
    requires Ok(cfg, u)
  {
    SymTri(cfg, u, cfg.modules).val == 0
  }

  predicate InYChoice(cfg: Config, u: User, s: nat)
    requires Ok(cfg, u) && s < |cfg.syms|
  {
    var d := cfg.syms[s];
    d.choice.Some? && d.choice.value < |cfg.choices| && ChoiceTri(cfg, u, d.choice.value) == 2
  }

  /** The symbol can be m: it is tristate, modules are on, and it is not in a choice in y mode. */
  predicate CanBeM(cfg: Config, u: User, s: nat)
    requires Ok(cfg, u) && s < |cfg.syms|
  {
    cfg.syms[s].kind == Tristate && !ModulesOff(cfg, u) && !InYChoice(cfg, u, s)
  }

  /** A symbol that is not tristate in a tristate choice that is not in y mode. */
  predicate BoolOutOfMode(cfg: Config, u: User, s: nat)
    requires Ok(cfg, u) && s < |cfg.syms|
  {
    var d := cfg.syms[s];
    && d.choice.Some? && d.choice.value < |cfg.choices| && cfg.choices[d.choice.value].kind == Tristate
    && d.kind != Tristate && !InYChoice(cfg, u, s)
  }

  /** A symbol is as visible as its most visible prompt, with m raised to y if the symbol cannot be m.
      Symbols of a choice need y prompts if they are tristate and the choice is in y mode, and that mode
      if they are bool and the choice is tristate. */
  lemma VisibilityMeaning(cfg: Config, u: User, s: nat, p: Tri)
    requires Ok(cfg, u) && s < |cfg.syms| && Brightest(cfg, u, cfg.syms[s].rank, cfg.syms[s].prompts, p)
    ensures SymVis(cfg, u, s) != 0 <==>
        && p != 0 && !BoolOutOfMode(cfg, u, s)
        && !(cfg.syms[s].kind == Tristate && InYChoice(cfg, u, s) && p == 1)
    ensures SymVis(cfg, u, s) == 1 <==> p == 1 && !BoolOutOfMode(cfg, u, s) && CanBeM(cfg, u, s)
    ensures exists q :: Brightest(cfg, u, cfg.syms[s].rank, cfg.syms[s].prompts, q)
  {
    assert SymOk(cfg, s);
    var d := cfg.syms[s];
    PromptMaxIs(cfg, u, d.rank, d.prompts);
    OneBrightest(cfg, u, d.rank, d.prompts, p, PromptMax(cfg, u, d.rank, d.prompts));
  }

  lemma OneBrightest(cfg: Config, u: User, b: nat, ps: seq<Expr>, p: Tri, q: Tri)
    requires Ok(cfg, u) && Brightest(cfg, u, b, ps, p) && Brightest(cfg, u, b, ps, q)
    ensures p == q
  {
  }

  /** A choice can be m: it is tristate, and modules are on. */
  predicate ChoiceCanBeM(cfg: Config, u: User, c: nat)
    requires Ok(cfg, u) && c < |cfg.choices|
  {
    cfg.choices[c].kind == Tristate && !ModulesOff(cfg, u)
  }

  lemma ChoiceVisibilityMeaning(cfg: Config, u: User, c: nat, p: Tri)
    requires Ok(cfg, u) && c < |cfg.choices| && Brightest(cfg, u, cfg.choices[c].rank, cfg.choices[c].prompts, p)
    ensures ChoiceVis(cfg, u, c) == if p == 1 && !ChoiceCanBeM(cfg, u, c) then 2 else p
    ensures exists q :: Brightest(cfg, u, cfg.choices[c].rank, cfg.choices[c].prompts, q)
  {
    assert ChoiceOk(cfg, c);
    var d := cfg.choices[c];
    PromptMaxIs(cfg, u, d.rank, d.prompts);
    OneBrightest(cfg, u, d.rank, d.prompts, p, PromptMax(cfg, u, d.rank, d.prompts));
  }

  /* Choices */

  predicate Asked(u: User, c: nat, v: Tri) { c in u.mode && u.mode[c] == v }

  /** A choice is in n mode if it is invisible, or optional with neither m nor y asked for. Otherwise it
      is in y mode if it is bool, or if y is asked for and visible; and in m mode if not. */
  lemma ModeMeaning(cfg: Config, u: User, c: nat)
    requires Ok(cfg, u) && c < |cfg.choices| && BoolTri(cfg.choices[c].kind)
    ensures ChoiceTri(cfg, u, c) == 0 <==>
        ChoiceVis(cfg, u, c) == 0 || (cfg.choices[c].optional && !Asked(u, c, 1) && !Asked(u, c, 2))
    ensures ChoiceTri(cfg, u, c) == 2 <==>
        && ChoiceTri(cfg, u, c) != 0
        && (!ChoiceCanBeM(cfg, u, c) || (Asked(u, c, 2) && ChoiceVis(cfg, u, c) == 2))
  {
  }

  predicate Visible(cfg: Config, u: User, s: nat)
    requires Ok(cfg, u)
  {
    s < |cfg.syms| && SymVis(cfg, u, s) != 0
  }

  /** The default selection `k` applies: its condition holds, and its symbol is visible. */
  predicate PickApplies(cfg: Config, u: User, c: nat, k: nat)
    requires Ok(cfg, u) && c < |cfg.choices|
  {
    var d := cfg.choices[c];
    && k < |d.picks|
    && CondValue(cfg, u, d.rank, d.picks[k].cond) != 0
    && Visible(cfg, u, d.picks[k].sym)
  }

  /** The symbol of the first default that applies or, if none does, the first visible symbol. */
  ghost predicate DefaultChoice(cfg: Config, u: User, c: nat, s: nat)
    requires Ok(cfg, u) && c < |cfg.choices|
  {
    var d := cfg.choices[c];
    || (exists k: nat ::
          && PickApplies(cfg, u, c, k) && s == d.picks[k].sym
          && forall j: nat :: j < k ==> !PickApplies(cfg, u, c, j))
    || ((forall j: nat :: !PickApplies(cfg, u, c, j)) && FirstSeen(cfg, u, c, 0, s))
  }

  /** `s` is the first visible symbol from position `from` on. */
  ghost predicate FirstSeen(cfg: Config, u: User, c: nat, from: nat, s: nat)
    requires Ok(cfg, u) && c < |cfg.choices|
  {
    var syms := cfg.choices[c].syms;
    exists i :: 0 <= from <= i < |syms| && s == syms[i] && Visible(cfg, u, s)
                && forall j :: from <= j < i ==> !Visible(cfg, u, syms[j])
  }

  lemma {:induction false} FirstVisibleMeaning(cfg: Config, u: User, c: nat, k: nat)
    requires Ok(cfg, u) && c < |cfg.choices| && k <= |cfg.choices[c].syms|
    ensures FirstVisible(cfg, u, c, k).Some? ==> FirstSeen(cfg, u, c, k, FirstVisible(cfg, u, c, k).value)
    ensures FirstVisible(cfg, u, c, k).None? ==>
              forall j :: k <= j < |cfg.choices[c].syms| ==> !Visible(cfg, u, cfg.choices[c].syms[j])
    decreases |cfg.choices[c].syms| - k
  {
    var syms := cfg.choices[c].syms;
    if k < |syms| {
      ChoiceSym(cfg, c, syms[k]);
      FirstVisibleMeaning(cfg, u, c, k + 1);
      if SymVis(cfg, u, syms[k]) != 0 {
        assert Visible(cfg, u, syms[k]);
      } else if FirstVisible(cfg, u, c, k).Some? {
        var i :| k + 1 <= i < |syms| && FirstVisible(cfg, u, c, k).value == syms[i] && Visible(cfg, u, syms[i])
                 && forall j :: k + 1 <= j < i ==> !Visible(cfg, u, syms[j]);
        assert forall j :: k <= j < i ==> !Visible(cfg, u, syms[j]);
      }
    }
  }

  lemma {:induction false} DefaultPickMeaning(cfg: Config, u: User, c: nat, k: nat)
    requires Ok(cfg, u) && c < |cfg.choices| && k <= |cfg.choices[c].picks|
    requires forall j: nat :: j < k ==> !PickApplies(cfg, u, c, j)
    ensures DefaultPick(cfg, u, c, k).Some? ==> DefaultChoice(cfg, u, c, DefaultPick(cfg, u, c, k).value)
    ensures DefaultPick(cfg, u, c, k).None? ==>
              forall j :: 0 <= j < |cfg.choices[c].syms| ==> !Visible(cfg, u, cfg.choices[c].syms[j])
    decreases |cfg.choices[c].picks| - k
  {
    var picks := cfg.choices[c].picks;
    if k == |picks| {
      FirstVisibleMeaning(cfg, u, c, 0);
    } else {
      PickOk(cfg, c, k);
      ChoiceSym(cfg, c, picks[k].sym);
      if !PickApplies(cfg, u, c, k) {
        DefaultPickMeaning(cfg, u, c, k + 1);
      }
    }
  }

  lemma OneDefaultChoice(cfg: Config, u: User, c: nat, s: nat, t: nat)
    requires Ok(cfg, u) && c < |cfg.choices| && DefaultChoice(cfg, u, c, s) && DefaultChoice(cfg, u, c, t)
    ensures s == t
  {
    if forall j: nat :: !PickApplies(cfg, u, c, j) {
      OneFirstSeen(cfg, u, c, s, t);
    }
  }

  lemma OneFirstSeen(cfg: Config, u: User, c: nat, s: nat, t: nat)
    requires Ok(cfg, u) && c < |cfg.choices| && FirstSeen(cfg, u, c, 0, s) && FirstSeen(cfg, u, c, 0, t)
    ensures s == t
  {
  }

  lemma DefaultChoiceVisible(cfg: Config, u: User, c: nat, s: nat)
    requires Ok(cfg, u) && c < |cfg.choices| && DefaultChoice(cfg, u, c, s)
    ensures s in cfg.choices[c].syms && Visible(cfg, u, s)
  {
    if forall j: nat :: !PickApplies(cfg, u, c, j) {
    } else {
      var k: nat :| PickApplies(cfg, u, c, k) && s == cfg.choices[c].picks[k].sym;
      PickOk(cfg, c, k);
    }
  }

  lemma DefaultPickIsDefault(cfg: Config, u: User, c: nat, s: nat)
    requires Ok(cfg, u) && c < |cfg.choices|
    ensures DefaultPick(cfg, u, c, 0) == Some(s) <==> DefaultChoice(cfg, u, c, s)
  {
    DefaultPickMeaning(cfg, u, c, 0);
    if DefaultChoice(cfg, u, c, s) {
      DefaultChoiceVisible(cfg, u, c, s);
      if DefaultPick(cfg, u, c, 0).Some? {
        OneDefaultChoice(cfg, u, c, s, DefaultPick(cfg, u, c, 0).value);
      }
    }
  }

  /** The selection of a choice in y mode is the user's pick if that is visible, or else the symbol of the
      first default that applies, or else the first visible symbol. */
  lemma SelectionMeaning(cfg: Config, u: User, c: nat, s: nat)
    requires Ok(cfg, u) && c < |cfg.choices|
    ensures Selection(cfg, u, c) == Some(s) <==>
        && ChoiceTri(cfg, u, c) == 2
        && if c in u.pick && Visible(cfg, u, u.pick[c]) then s == u.pick[c] else DefaultChoice(cfg, u, c, s)
  {
    DefaultPickIsDefault(cfg, u, c, s);
    if c in u.pick {
      ChoiceSym(cfg, c, u.pick[c]);
    }
  }

  /* Bool and tristate symbols */

  /** Default `k` is the first whose condition is not n. */
  ghost predicate FirstDefault(cfg: Config, u: User, s: nat, k: nat)
    requires Ok(cfg, u) && s < |cfg.syms|
  {
    var d := cfg.syms[s];
    && k < |d.defaults| && CondValue(cfg, u, d.rank, d.defaults[k].cond) != 0
    && forall j :: 0 <= j < k ==> CondValue(cfg, u, d.rank, d.defaults[j].cond) == 0
  }

  ghost predicate NoDefault(cfg: Config, u: User, s: nat)
    requires Ok(cfg, u) && s < |cfg.syms|
  {
    var d := cfg.syms[s];
    forall j :: 0 <= j < |d.defaults| ==> CondValue(cfg, u, d.rank, d.defaults[j].cond) == 0
  }

  lemma OneFirstDefault(cfg: Config, u: User, s: nat, j: nat, k: nat)
    requires Ok(cfg, u) && s < |cfg.syms| && FirstDefault(cfg, u, s, j) && FirstDefault(cfg, u, s, k)
    ensures j == k && !NoDefault(cfg, u, s)
  {
  }

  /** What the defaults contribute: the value of the first one that applies as far as its condition
      allows, or n if none applies. */
  ghost predicate OwnValue(cfg: Config, u: User, s: nat, own: Tri)
    requires Ok(cfg, u) && s < |cfg.syms|
  {
    var d := cfg.syms[s];
    || (NoDefault(cfg, u, s) && own == 0)
    || exists k: nat ::
         && FirstDefault(cfg, u, s, k)
         && Smaller(own, CondValue(cfg, u, d.rank, d.defaults[k].value), CondValue(cfg, u, d.rank, d.defaults[k].cond))
  }

  lemma {:induction false} DefaultTriIs(cfg: Config, u: User, s: nat, k: nat)
    requires Ok(cfg, u) && s < |cfg.syms| && SymOk(cfg, s) && k <= |cfg.syms[s].defaults|
    requires forall j :: 0 <= j < k ==> CondValue(cfg, u, cfg.syms[s].rank, cfg.syms[s].defaults[j].cond) == 0
    ensures var r := DefaultTri(cfg, u, cfg.syms[s].rank, cfg.syms[s].defaults, k);
            OwnValue(cfg, u, s, r.val) && (r.write <==> r.val != 0)
    decreases |cfg.syms[s].defaults| - k
  {
    var d := cfg.syms[s];
    if k < |d.defaults| {
      if ExprValue(cfg, u, d.rank, d.defaults[k].cond) != 0 {
        assert FirstDefault(cfg, u, s, k);
      } else {
        DefaultTriIs(cfg, u, s, k + 1);
      }
    }
  }

  lemma OneOwnValue(cfg: Config, u: User, s: nat, v: Tri, w: Tri)
    requires Ok(cfg, u) && s < |cfg.syms| && OwnValue(cfg, u, s, v) && OwnValue(cfg, u, s, w)
    ensures v == w
  {
    if !NoDefault(cfg, u, s) {
      var d := cfg.syms[s];
      var j: nat :| FirstDefault(cfg, u, s, j) &&
        Smaller(v, CondValue(cfg, u, d.rank, d.defaults[j].value), CondValue(cfg, u, d.rank, d.defaults[j].cond));
      var k: nat :| FirstDefault(cfg, u, s, k) &&
        Smaller(w, CondValue(cfg, u, d.rank, d.defaults[k].value), CondValue(cfg, u, d.rank, d.defaults[k].cond));
      OneFirstDefault(cfg, u, s, j, k);
    } else {
      forall k: nat | FirstDefault(cfg, u, s, k)
        ensures false
      {
        OneFirstDefault(cfg, u, s, k, k);
      }
    }
  }

  /** The value of the selects that apply to a symbol. */
  function SelectedTo(cfg: Config, u: User, s: nat): Tri
    requires Ok(cfg, u) && s < |cfg.syms|
  {
    CondValue(cfg, u, cfg.syms[s].rank, cfg.syms[s].revDep)
  }

  /** The value of the implies; they are met if the symbol's own dependencies hold. */
  function ImpliedTo(cfg: Config, u: User, s: nat): Tri
    requires Ok(cfg, u) && s < |cfg.syms|
  {
    CondValue(cfg, u, cfg.syms[s].rank, cfg.syms[s].weakRevDep)
  }

  function MetImply(cfg: Config, u: User, s: nat): Tri
    requires Ok(cfg, u) && s < |cfg.syms|
  {
    if CondValue(cfg, u, cfg.syms[s].rank, cfg.syms[s].directDep) != 0 then ImpliedTo(cfg, u, s) else 0
  }

  /** `raw` with m promoted to y for symbols that cannot be m or are implied to y. */
  predicate RaisedFromM(cfg: Config, u: User, s: nat, raw: Tri, val: Tri)
    requires Ok(cfg, u) && s < |cfg.syms|
  {
    val == if raw == 1 && (!CanBeM(cfg, u, s) || ImpliedTo(cfg, u, s) == 2) then 2 else raw
  }

  predicate UserCounts(cfg: Config, u: User, s: nat)
    requires Ok(cfg, u) && s < |cfg.syms|
  {
    SymVis(cfg, u, s) != 0 && s in u.tri
  }

  lemma SelectedIs(cfg: Config, u: User, s: nat)
    requires Ok(cfg, u) && s < |cfg.syms| && BoolTri(cfg.syms[s].kind) && cfg.syms[s].choice.None?
    ensures RaisedFromM(cfg, u, s, SelectedTri(cfg, u, s).val, SymTri(cfg, u, s).val)
    ensures SymTri(cfg, u, s).write == SelectedTri(cfg, u, s).write
    ensures Larger(SelectedTri(cfg, u, s).val, SelectedTo(cfg, u, s), BaseTri(cfg, u, s).val)
    ensures SelectedTri(cfg, u, s).write <==> SelectedTo(cfg, u, s) != 0 || BaseTri(cfg, u, s).write
  {
    assert SymOk(cfg, s);
  }

  /** The value of a symbol that the user has set and that is visible: the user's value as far as the
      symbol is visible, or that of its selects if it is larger. */
  lemma ValueFromUser(cfg: Config, u: User, s: nat)
    requires Ok(cfg, u) && s < |cfg.syms| && BoolTri(cfg.syms[s].kind) && cfg.syms[s].choice.None?
    requires UserCounts(cfg, u, s)
    ensures exists limited: Tri, raw: Tri ::
              && Smaller(limited, u.tri[s], SymVis(cfg, u, s))
              && Larger(raw, SelectedTo(cfg, u, s), limited)
              && RaisedFromM(cfg, u, s, raw, SymTri(cfg, u, s).val)
    ensures SymTri(cfg, u, s).write
  {
    SelectedIs(cfg, u, s);
    assert SymOk(cfg, s);
    assert Smaller(BaseTri(cfg, u, s).val, u.tri[s], SymVis(cfg, u, s));
    assert Larger(SelectedTri(cfg, u, s).val, SelectedTo(cfg, u, s), BaseTri(cfg, u, s).val);
  }

  predicate LargestOf(raw: Tri, a: Tri, b: Tri, c: Tri) {
    a <= raw && b <= raw && c <= raw && (raw == a || raw == b || raw == c)
  }

  /** The value of a symbol that the user has not set, or that is invisible: the largest of its selects,
      its met implies, and what its defaults contribute. It is written if it is visible or one of these
      is not n. */
  lemma ValueFromDefaults(cfg: Config, u: User, s: nat)
    requires Ok(cfg, u) && s < |cfg.syms| && BoolTri(cfg.syms[s].kind) && cfg.syms[s].choice.None?
    requires !UserCounts(cfg, u, s)
    ensures exists own: Tri, raw: Tri ::
              && OwnValue(cfg, u, s, own)
              && LargestOf(raw, SelectedTo(cfg, u, s), MetImply(cfg, u, s), own)
              && RaisedFromM(cfg, u, s, raw, SymTri(cfg, u, s).val)
              && (SymTri(cfg, u, s).write <==> SymVis(cfg, u, s) != 0 || raw != 0)
  {
    var d := cfg.syms[s];
    SelectedIs(cfg, u, s);
    assert SymOk(cfg, s);
    DefaultTriIs(cfg, u, s, 0);
    var own := DefaultTri(cfg, u, d.rank, d.defaults, 0).val;
    var raw := SelectedTri(cfg, u, s).val;
    assert Larger(BaseTri(cfg, u, s).val, MetImply(cfg, u, s), own);
    assert LargestOf(raw, SelectedTo(cfg, u, s), MetImply(cfg, u, s), own);
    assert OwnValue(cfg, u, s, own);
  }

  /** A symbol of a choice that is visible at y is y just when it is selected. One that is visible at m
      is m just when the user has set it to m or y, and n if not. */
  lemma ChoiceSymMeaning(cfg: Config, u: User, s: nat)
    requires Ok(cfg, u) && s < |cfg.syms| && BoolTri(cfg.syms[s].kind) && cfg.syms[s].choice.Some?
    requires cfg.syms[s].choice.value < |cfg.choices|
    ensures SymTri(cfg, u, s).val == 2 <==>
        SymVis(cfg, u, s) == 2 && Selection(cfg, u, cfg.syms[s].choice.value) == Some(s)
    ensures SymTri(cfg, u, s).val == 1 <==> SymVis(cfg, u, s) == 1 && s in u.tri && u.tri[s] != 0
    ensures SymTri(cfg, u, s).write <==> SymVis(cfg, u, s) != 0
  {
    assert SymOk(cfg, s);
  }

  /* Strings and numbers */

  function TextAt(cfg: Config, u: User, b: nat, i: Item): string
    requires Ok(cfg, u)
  {
    if IsSymbol(i) && Below(cfg, b, i) then ItemStr(cfg, u, b, i) else ""
  }

  /** The text of the first default that applies, or the empty text if none does. */
  ghost predicate OwnText(cfg: Config, u: User, s: nat, text: string)
    requires Ok(cfg, u) && s < |cfg.syms|
  {
    var d := cfg.syms[s];
    || (NoDefault(cfg, u, s) && text == "")
    || exists k: nat ::
         FirstDefault(cfg, u, s, k) && d.defaults[k].value.Atom?
         && text == TextAt(cfg, u, d.rank, d.defaults[k].value.item)
  }

  lemma {:induction false} DefaultStrIs(cfg: Config, u: User, s: nat, k: nat)
    requires Ok(cfg, u) && s < |cfg.syms| && SymOk(cfg, s) && k <= |cfg.syms[s].defaults|
    requires !BoolTri(cfg.syms[s].kind)
    requires forall j :: 0 <= j < k ==> CondValue(cfg, u, cfg.syms[s].rank, cfg.syms[s].defaults[j].cond) == 0
    ensures var r := DefaultStr(cfg, u, cfg.syms[s].rank, cfg.syms[s].defaults, k);
            && (r.None? <==> NoDefault(cfg, u, s))
            && OwnText(cfg, u, s, if r.Some? then r.value else "")
    decreases |cfg.syms[s].defaults| - k
  {
    var d := cfg.syms[s];
    if k < |d.defaults| {
      if ExprValue(cfg, u, d.rank, d.defaults[k].cond) != 0 {
        assert FirstDefault(cfg, u, s, k);
        OneFirstDefault(cfg, u, s, k, k);
      } else {
        DefaultStrIs(cfg, u, s, k + 1);
      }
    }
  }

  /** The value of a string symbol is the user's if it is visible, and that of its defaults otherwise. */
  lemma StringMeaning(cfg: Config, u: User, s: nat)
    requires Ok(cfg, u) && s < |cfg.syms| && cfg.syms[s].kind == Text
    ensures SymVis(cfg, u, s) != 0 && s in u.text ==> SymStr(cfg, u, s) == StrRes(u.text[s], true)
    ensures !(SymVis(cfg, u, s) != 0 && s in u.text) ==>
        && OwnText(cfg, u, s, SymStr(cfg, u, s).val)
        && (SymStr(cfg, u, s).write <==> SymVis(cfg, u, s) != 0 || !NoDefault(cfg, u, s))
  {
    assert SymOk(cfg, s);
    DefaultStrIs(cfg, u, s, 0);
  }

  /** A text as a number of the type: 0 if it is not a number. */
  ghost predicate ReadsAs(cfg: Config, kind: Kind, text: string, n: int) {
    var read := cfg.toInt(text, if kind == Hex then 16 else 10);
    read == Some(n) || (read == None && n == 0)
  }

  predicate RangeApplies(cfg: Config, u: User, s: nat, k: nat)
    requires Ok(cfg, u) && s < |cfg.syms|
  {
    var d := cfg.syms[s];
    k < |d.ranges| && CondValue(cfg, u, d.rank, d.ranges[k].cond) != 0
  }

  /** `low` and `high` are the ends of the first range whose condition is not n. */
  ghost predicate RangeIs(cfg: Config, u: User, s: nat, low: int, high: int)
    requires Ok(cfg, u) && s < |cfg.syms|
  {
    var d := cfg.syms[s];
    exists k: nat ::
      && RangeApplies(cfg, u, s, k)
      && (forall j: nat :: j < k ==> !RangeApplies(cfg, u, s, j))
      && ReadsAs(cfg, d.kind, TextAt(cfg, u, d.rank, d.ranges[k].low), low)
      && ReadsAs(cfg, d.kind, TextAt(cfg, u, d.rank, d.ranges[k].high), high)
  }

  ghost predicate NoRange(cfg: Config, u: User, s: nat)
    requires Ok(cfg, u) && s < |cfg.syms|
  {
    forall j: nat :: !RangeApplies(cfg, u, s, j)
  }

  lemma {:induction false} ActiveRangeIs(cfg: Config, u: User, s: nat, k: nat)
    requires Ok(cfg, u) && s < |cfg.syms| && SymOk(cfg, s) && k <= |cfg.syms[s].ranges| && IntHex(cfg.syms[s].kind)
    requires forall j: nat :: j < k ==> !RangeApplies(cfg, u, s, j)
    ensures var r := ActiveRange(cfg, u, cfg.syms[s].rank, Base(cfg.syms[s].kind), cfg.syms[s].ranges, k);
            && (r.None? ==> NoRange(cfg, u, s))
            && (r.Some? ==> !NoRange(cfg, u, s) && RangeIs(cfg, u, s, r.value.0, r.value.1))
    decreases |cfg.syms[s].ranges| - k
  {
    var d := cfg.syms[s];
    if k < |d.ranges| {
      if ExprValue(cfg, u, d.rank, d.ranges[k].cond) != 0 {
        assert RangeApplies(cfg, u, s, k);
      } else {
        ActiveRangeIs(cfg, u, s, k + 1);
      }
    }
  }

  lemma OneRange(cfg: Config, u: User, s: nat, low: int, high: int, low': int, high': int)
    requires Ok(cfg, u) && s < |cfg.syms| && RangeIs(cfg, u, s, low, high) && RangeIs(cfg, u, s, low', high')
    ensures low == low' && high == high' && !NoRange(cfg, u, s)
  {
  }

  /** A number lies within the range that applies, if one does. */
  ghost predicate Fits(cfg: Config, u: User, s: nat, n: int)
    requires Ok(cfg, u) && s < |cfg.syms|
  {
    NoRange(cfg, u, s) || exists low, high :: RangeIs(cfg, u, s, low, high) && low <= n <= high
  }

  /** The user's text counts for a number symbol if it is visible and the number fits. */
  ghost predicate UserTextCounts(cfg: Config, u: User, s: nat)
    requires Ok(cfg, u) && s < |cfg.syms|
  {
    && SymVis(cfg, u, s) != 0 && s in u.text && u.text[s] != ""
    && exists n :: ReadsAs(cfg, cfg.syms[s].kind, u.text[s], n) && Fits(cfg, u, s, n)
  }

  /** A default that fits is taken as it is written. Otherwise the nearest end of the range is taken, in
      the standard form of the type. */
  ghost predicate TakenInto(cfg: Config, u: User, s: nat, text: string, n: int, val: string)
    requires Ok(cfg, u) && s < |cfg.syms|
  {
    && (Fits(cfg, u, s, n) ==> val == text)
    && forall low, high :: RangeIs(cfg, u, s, low, high) ==>
         && (n < low ==> val == cfg.numText(low, cfg.syms[s].kind == Hex))
         && (low <= n && high < n ==> val == cfg.numText(high, cfg.syms[s].kind == Hex))
  }

  lemma FitsIs(cfg: Config, u: User, s: nat, n: int)
    requires Ok(cfg, u) && s < |cfg.syms| && SymOk(cfg, s) && IntHex(cfg.syms[s].kind)
    ensures var d := cfg.syms[s];
            Fits(cfg, u, s, n) <==> InRange(ActiveRange(cfg, u, d.rank, Base(d.kind), d.ranges, 0), n)
  {
    var d := cfg.syms[s];
    ActiveRangeIs(cfg, u, s, 0);
    var r := ActiveRange(cfg, u, d.rank, Base(d.kind), d.ranges, 0);
    if r.Some? {
      forall low, high | RangeIs(cfg, u, s, low, high)
        ensures low == r.value.0 && high == r.value.1
      {
        OneRange(cfg, u, s, low, high, r.value.0, r.value.1);
      }
    }
  }

  lemma ClampedIs(cfg: Config, u: User, s: nat)
    requires Ok(cfg, u) && s < |cfg.syms| && SymOk(cfg, s) && IntHex(cfg.syms[s].kind)
    ensures var d := cfg.syms[s];
            var def := DefaultStr(cfg, u, d.rank, d.defaults, 0);
            var text := if def.Some? then def.value else "";
            TakenInto(cfg, u, s, text, if def.Some? then Number(cfg, text, Base(d.kind)) else 0,
                      Clamped(cfg, d.kind, ActiveRange(cfg, u, d.rank, Base(d.kind), d.ranges, 0), def))
  {
    var d := cfg.syms[s];
    var def := DefaultStr(cfg, u, d.rank, d.defaults, 0);
    var n := if def.Some? then Number(cfg, def.value, Base(d.kind)) else 0;
    var r := ActiveRange(cfg, u, d.rank, Base(d.kind), d.ranges, 0);
    FitsIs(cfg, u, s, n);
    ActiveRangeIs(cfg, u, s, 0);
    forall low, high | RangeIs(cfg, u, s, low, high)
      ensures r == Some((low, high))
    {
      if r.Some? {
        OneRange(cfg, u, s, low, high, r.value.0, r.value.1);
      } else {
        OneRange(cfg, u, s, low, high, low, high);
      }
    }
  }

  /** The value of an int or hex symbol is the user's text if it counts, exactly as it was given, and
      otherwise its default, taken into the range that applies. */
  lemma NumberMeaning(cfg: Config, u: User, s: nat)
    requires Ok(cfg, u) && s < |cfg.syms| && IntHex(cfg.syms[s].kind)
    ensures UserTextCounts(cfg, u, s) ==> SymStr(cfg, u, s) == StrRes(u.text[s], true)
    ensures !UserTextCounts(cfg, u, s) ==>
        exists text, n ::
          && OwnText(cfg, u, s, text)
          && (if NoDefault(cfg, u, s) then n == 0 else ReadsAs(cfg, cfg.syms[s].kind, text, n))
          && TakenInto(cfg, u, s, text, n, SymStr(cfg, u, s).val)
          && (SymStr(cfg, u, s).write <==> SymVis(cfg, u, s) != 0 || !NoDefault(cfg, u, s))
  {
    assert SymOk(cfg, s);
    var d := cfg.syms[s];
    DefaultStrIs(cfg, u, s, 0);
    UserTextIs(cfg, u, s);
    if !UserTextCounts(cfg, u, s) {
      ClampedIs(cfg, u, s);
      var def := DefaultStr(cfg, u, d.rank, d.defaults, 0);
      var text := if def.Some? then def.value else "";
      var n := if def.Some? then Number(cfg, text, Base(d.kind)) else 0;
      assert OwnText(cfg, u, s, text) && TakenInto(cfg, u, s, text, n, SymStr(cfg, u, s).val);
    }
  }

  lemma UserTextIs(cfg: Config, u: User, s: nat)
    requires Ok(cfg, u) && s < |cfg.syms| && SymOk(cfg, s) && IntHex(cfg.syms[s].kind)
    ensures var d := cfg.syms[s];
            UserTextCounts(cfg, u, s) <==>
            && SymVis(cfg, u, s) != 0 && s in u.text && u.text[s] != ""
            && InRange(ActiveRange(cfg, u, d.rank, Base(d.kind), d.ranges, 0), Number(cfg, u.text[s], Base(d.kind)))
  {
    if s in u.text {
      var n := Number(cfg, u.text[s], Base(cfg.syms[s].kind));
      assert ReadsAs(cfg, cfg.syms[s].kind, u.text[s], n);
      FitsIs(cfg, u, s, n);
    }
  }

  /** Symbols without a type have their name as text, and bool and tristate symbols a letter. */
  lemma LetterMeaning(cfg: Config, u: User, s: nat)
    requires Ok(cfg, u) && s < |cfg.syms|
    ensures cfg.syms[s].kind == Unknown ==> SymStr(cfg, u, s) == StrRes(cfg.syms[s].name, false)
    ensures BoolTri(cfg.syms[s].kind) ==>
        && SymStr(cfg, u, s).write == SymTri(cfg, u, s).write
        && |SymStr(cfg, u, s).val| == 1 && SymStr(cfg, u, s).val[0] == "nmy"[SymTri(cfg, u, s).val]
    ensures !BoolTri(cfg.syms[s].kind) ==> SymTri(cfg, u, s).val == 0
  {
    assert SymOk(cfg, s);
  }

  /** The text of a symbol is its value, that of n, m and y their letter, and that of a constant itself. */
  lemma TextMeaning(cfg: Config, u: User, b: nat, i: Item)
    requires Ok(cfg, u) && IsSymbol(i) && Below(cfg, b, i)
    ensures i.Sym? ==> TextAt(cfg, u, b, i) == SymStr(cfg, u, i.s).val
    ensures i.TriConst? ==> TextAt(cfg, u, b, i) == ["nmy"[i.tri]]
    ensures i.StrConst? ==> TextAt(cfg, u, b, i) == i.text
  {
  }
}
