/** What the loop detection leaves to the evaluation of a configuration: the order that its values rest on. */
module KconfigLoopOrder {
  import opened KconfigSyntax
  import opened KconfigLoops
  import opened KconfigLoopGuard

  /* The dependency graph of a configuration */

  /** Node `n` mentions item `i`. */
  predicate Mentions(cfg: Config, n: Node, i: Item) {
    match n
    case S(s) => s < |cfg.syms| && i in SymItems(cfg, s)
    case C(c) => c < |cfg.choices| && i in ChoiceItems(cfg, c)
  }

  /** The graph as it is when the loop detection runs: the dependents of a symbol are what mentions it. */
  ghost predicate Represents(g: Graph, cfg: Config) {
    && GraphOk(g) && |g.deps| == |cfg.syms| && |g.members| == |cfg.choices|
    && (forall s: nat :: s < |cfg.syms| ==> g.choiceOf[s] == cfg.syms[s].choice)
    && (forall c: nat :: c < |cfg.choices| ==> g.members[c] == cfg.choices[c].syms)
    && forall s: nat, n :: s < |cfg.syms| ==> (n in g.deps[s] <==> Mentions(cfg, n, Sym(s)))
  }

  /* Configurations without an order */

  function WithRanks(cfg: Config, rank: map<Node, nat>): Config {
    cfg.(syms := seq(|cfg.syms|, s requires 0 <= s < |cfg.syms| => cfg.syms[s].(rank := RankOf(rank, S(s)))),
         choices := seq(|cfg.choices|,
             c requires 0 <= c < |cfg.choices| => cfg.choices[c].(rank := RankOf(rank, C(c)))))
  }

  function RankOf(rank: map<Node, nat>, n: Node): nat { if n in rank then rank[n] else 0 }

  /** Relations are between symbols. */
  predicate ExprShape(e: Expr) {
    match e
    case Atom(_) => true
    case And(l, r) => ExprShape(l) && ExprShape(r)
    case Or(l, r) => ExprShape(l) && ExprShape(r)
    case Not(f) => ExprShape(f)
    case Rel(_, x, y) => IsSymbol(x) && IsSymbol(y)
  }

  ghost predicate SymShape(cfg: Config, s: nat)
    requires s < |cfg.syms|
  {
    var d := cfg.syms[s];
    && (forall k :: 0 <= k < |d.prompts| ==> ExprShape(d.prompts[k]))
    && (forall k :: 0 <= k < |d.defaults| ==>
          && ExprShape(d.defaults[k].value) && ExprShape(d.defaults[k].cond)
          && (!BoolTri(d.kind) ==> d.defaults[k].value.Atom? && IsSymbol(d.defaults[k].value.item)))
    && (forall k :: 0 <= k < |d.ranges| ==>
          IsSymbol(d.ranges[k].low) && IsSymbol(d.ranges[k].high) && ExprShape(d.ranges[k].cond))
    && ExprShape(d.revDep) && ExprShape(d.weakRevDep) && ExprShape(d.directDep)
    && (forall i :: i in SymItems(cfg, s) ==> Known(cfg, i))
    && (d.choice.Some? ==>
          && d.choice.value < |cfg.choices| && s in cfg.choices[d.choice.value].syms
          && Choice(d.choice.value) in SymItems(cfg, s))
  }

  ghost predicate ChoiceShape(cfg: Config, c: nat)
    requires c < |cfg.choices|
  {
    var d := cfg.choices[c];
    && (forall k :: 0 <= k < |d.prompts| ==> ExprShape(d.prompts[k]))
    && (forall k :: 0 <= k < |d.picks| ==> ExprShape(d.picks[k].cond) && d.picks[k].sym in d.syms)
    && (forall i :: i in ChoiceItems(cfg, c) ==> Known(cfg, i))
    && (forall s :: s in d.syms ==> s < |cfg.syms| && cfg.syms[s].choice == Some(c))
  }

  /** All that is asked of a configuration but an order: MODULES depends on nothing, and what mentions a
      choice is in it or mentions one of its symbols as well. */
  ghost predicate Shape(cfg: Config) {
    && cfg.modules < |cfg.syms|
    && (forall s: nat :: s < |cfg.syms| ==> SymShape(cfg, s))
    && (forall c: nat :: c < |cfg.choices| ==> ChoiceShape(cfg, c))
    && cfg.syms[cfg.modules].choice == None && cfg.syms[cfg.modules].kind != Tristate
    && (forall i :: i in SymItems(cfg, cfg.modules) ==> i.TriConst? || i.StrConst?)
    && (forall n, c: nat {:trigger Mentions(cfg, n, Choice(c))} :: Mentions(cfg, n, Choice(c)) && c < |cfg.choices| ==>
          || (n.S? && cfg.syms[n.s].choice == Some(c))
          || exists s: nat :: s in cfg.choices[c].syms && Mentions(cfg, n, Sym(s)))
  }

  predicate AllBelow(cfg: Config, b: nat, items: set<Item>) { forall i :: i in items ==> Below(cfg, b, i) }

  lemma ExprBelowExact(cfg: Config, b: nat, e: Expr)
    ensures ExprBelow(cfg, b, e) <==> ExprShape(e) && AllBelow(cfg, b, Items(e))
  {
  }

  /** What a symbol mentions, property by property. */
  lemma SymBelow(cfg: Config, s: nat, b: nat)
    requires s < |cfg.syms|
    ensures var d := cfg.syms[s];
            AllBelow(cfg, b, SymItems(cfg, s)) <==>
            && (forall k :: 0 <= k < |d.prompts| ==> AllBelow(cfg, b, Items(d.prompts[k])))
            && (forall k :: 0 <= k < |d.defaults| ==>
                  AllBelow(cfg, b, Items(d.defaults[k].value)) && AllBelow(cfg, b, Items(d.defaults[k].cond)))
            && (forall k :: 0 <= k < |d.ranges| ==>
                  Below(cfg, b, d.ranges[k].low) && Below(cfg, b, d.ranges[k].high) &&
                      AllBelow(cfg, b, Items(d.ranges[k].cond)))
            && AllBelow(cfg, b, Items(d.revDep)) && AllBelow(cfg, b, Items(d.weakRevDep)) &&
                  AllBelow(cfg, b, Items(d.directDep))
  {
    SymMentions(cfg, s);
  }

  lemma SymMentions(cfg: Config, s: nat)
    requires s < |cfg.syms|
    ensures var d := cfg.syms[s];
            && (forall k, i :: 0 <= k < |d.prompts| && i in Items(d.prompts[k]) ==> i in SymItems(cfg, s))
            && (forall k, i :: 0 <= k < |d.defaults| && i in Items(d.defaults[k].value) ==> i in SymItems(cfg, s))
            && (forall k, i :: 0 <= k < |d.defaults| && i in Items(d.defaults[k].cond) ==> i in SymItems(cfg, s))
            && (forall k, i :: 0 <= k < |d.ranges| && i in Items(d.ranges[k].cond) ==> i in SymItems(cfg, s))
            && (forall k :: 0 <= k < |d.ranges| ==>
                  d.ranges[k].low in SymItems(cfg, s) && d.ranges[k].high in SymItems(cfg, s))
  {
    var d := cfg.syms[s];
    forall k, i | 0 <= k < |d.defaults| && (i in Items(d.defaults[k].value) || i in Items(d.defaults[k].cond))
      ensures i in SymItems(cfg, s)
    {
      assert i in Items(d.defaults[k].value) + Items(d.defaults[k].cond);
    }
    forall k, i | 0 <= k < |d.ranges| && (i in {d.ranges[k].low, d.ranges[k].high} || i in Items(d.ranges[k].cond))
      ensures i in SymItems(cfg, s)
    {
      assert i in {d.ranges[k].low, d.ranges[k].high} + Items(d.ranges[k].cond);
    }
  }

  /** A symbol is in order just when everything it mentions comes before it. */
  lemma SymOkExact(cfg: Config, s: nat)
    requires s < |cfg.syms|
    ensures var d := cfg.syms[s];
            SymOk(cfg, s) <==>
            && SymShape(cfg, s)
            && AllBelow(cfg, d.rank, SymItems(cfg, s))
            && (d.kind == Tristate ==> Below(cfg, d.rank, Sym(cfg.modules)))
            && (d.choice.Some? ==> d.rank == cfg.choices[d.choice.value].rank + 1)
  {
    var d := cfg.syms[s];
    SymBelow(cfg, s, d.rank);
    forall e
      ensures ExprBelow(cfg, d.rank, e) <==> ExprShape(e) && AllBelow(cfg, d.rank, Items(e))
    {
      ExprBelowExact(cfg, d.rank, e);
    }
  }

  lemma ChoiceOkExact(cfg: Config, c: nat)
    requires c < |cfg.choices|
    ensures var d := cfg.choices[c];
            ChoiceOk(cfg, c) <==>
            && ChoiceShape(cfg, c)
            && AllBelow(cfg, d.rank, ChoiceItems(cfg, c))
            && (d.kind == Tristate ==> Below(cfg, d.rank, Sym(cfg.modules)))
  {
    var d := cfg.choices[c];
    forall e
      ensures ExprBelow(cfg, d.rank, e) <==> ExprShape(e) && AllBelow(cfg, d.rank, Items(e))
    {
      ExprBelowExact(cfg, d.rank, e);
    }
    assert forall k, i :: 0 <= k < |d.prompts| && i in Items(d.prompts[k]) ==> i in ChoiceItems(cfg, c);
    assert forall k, i :: 0 <= k < |d.picks| && i in Items(d.picks[k].cond) ==> i in ChoiceItems(cfg, c);
  }

  /* The order */

  lemma SameShape(cfg: Config, rank: map<Node, nat>)
    ensures var cfg' := WithRanks(cfg, rank);
            && |cfg'.syms| == |cfg.syms| && |cfg'.choices| == |cfg.choices| && cfg'.modules == cfg.modules
            && (forall s: nat :: s < |cfg.syms| ==> cfg'.syms[s] == cfg.syms[s].(rank := RankOf(rank, S(s))))
            && (forall c: nat :: c < |cfg.choices| ==> cfg'.choices[c] == cfg.choices[c].(rank := RankOf(rank, C(c))))
            && (forall s: nat :: s < |cfg.syms| ==> SymItems(cfg', s) == SymItems(cfg, s))
            && (forall c: nat :: c < |cfg.choices| ==> ChoiceItems(cfg', c) == ChoiceItems(cfg, c))
  {
    var cfg' := WithRanks(cfg, rank);
    forall s: nat | s < |cfg.syms|
      ensures SymItems(cfg', s) == SymItems(cfg, s)
    {
      assert cfg'.syms[s] == cfg.syms[s].(rank := RankOf(rank, S(s)));
    }
    forall c: nat | c < |cfg.choices|
      ensures ChoiceItems(cfg', c) == ChoiceItems(cfg, c)
    {
      assert cfg'.choices[c] == cfg.choices[c].(rank := RankOf(rank, C(c)));
    }
  }

  /** Ranks in which the configuration is well-formed order its graph. */
  lemma OrderOfGraph(g: Graph, cfg: Config, rank: map<Node, nat>) returns (r: map<Node, nat>)
    requires Represents(g, cfg) && WF(WithRanks(cfg, rank))
    ensures Orders(g, r)
  {
    var cfg' := WithRanks(cfg, rank);
    SameShape(cfg, rank);
    r := AllRanks(g, rank);
    forall s: nat, d | s < |g.deps| && d in g.deps[s]
      ensures r[S(s)] < r[d]
    {
      assert NodeOk(g, S(s)) && NodeOk(g, d) && Mentions(cfg, d, Sym(s));
      match d
      case S(k) => SymOkExact(cfg', k); assert Below(cfg', cfg'.syms[k].rank, Sym(s));
      case C(c) => ChoiceOkExact(cfg', c); assert Below(cfg', cfg'.choices[c].rank, Sym(s));
    }
    forall s: nat | s < |g.deps| && g.choiceOf[s].Some?
      ensures r[S(s)] == r[C(g.choiceOf[s].value)] + 1
    {
      assert NodeOk(g, S(s)) && NodeOk(g, C(g.choiceOf[s].value)) && SymOk(cfg', s);
    }
  }

  function AllRanks(g: Graph, rank: map<Node, nat>): (r: map<Node, nat>)
    ensures forall n :: NodeOk(g, n) ==> n in r && r[n] == RankOf(rank, n)
  {
    var nodes := (set s | 0 <= s < |g.deps| :: S(s)) + (set c | 0 <= c < |g.members| :: C(c));
    map n | n in nodes :: RankOf(rank, n)
  }

  /** MODULES comes first. */
  function Shifted(rank: map<Node, nat>, modules: nat): map<Node, nat> {
    map n | n in rank :: if n == S(modules) then 0 else rank[n] + 1
  }

  lemma MentionedBelow(g: Graph, cfg: Config, rank: map<Node, nat>, n: Node, i: Item)
    requires Represents(g, cfg) && Shape(cfg) && Orders(g, rank) && NodeOk(g, n) && Mentions(cfg, n, i)
    ensures n in rank && match i
                         case Sym(s) => S(s) in rank && n != S(cfg.modules) && rank[S(s)] < rank[n]
                         case Choice(c) => C(c) in rank && n != S(cfg.modules) && rank[C(c)] < rank[n]
                         case _ => true
  {
    assert if n.S? then SymShape(cfg, n.s) else ChoiceShape(cfg, n.c);
    match i
    case Sym(s) =>
      assert NodeOk(g, S(s)) && n in g.deps[s];
    case Choice(c) =>
      assert NodeOk(g, C(c));
      if !(n.S? && cfg.syms[n.s].choice == Some(c)) {
        var s: nat :| s in cfg.choices[c].syms && Mentions(cfg, n, Sym(s));
        assert NodeOk(g, S(s)) && n in g.deps[s] && g.choiceOf[s] == Some(c);
      } else {
        assert g.choiceOf[n.s] == Some(c);
      }
    case _ =>
  }

  lemma ItemsBelow(g: Graph, cfg: Config, rank: map<Node, nat>, n: Node, items: set<Item>)
    requires Represents(g, cfg) && Shape(cfg) && Orders(g, rank) && NodeOk(g, n)
    requires forall i :: i in items ==> Mentions(cfg, n, i)
    ensures n in rank && AllBelow(WithRanks(cfg, Shifted(rank, cfg.modules)), Shifted(rank, cfg.modules)[n], items)
  {
    SameShape(cfg, Shifted(rank, cfg.modules));
    assert n in rank;
    forall i | i in items
      ensures Below(WithRanks(cfg, Shifted(rank, cfg.modules)), Shifted(rank, cfg.modules)[n], i)
    {
      MentionedBelow(g, cfg, rank, n, i);
      assert if n.S? then SymShape(cfg, n.s) else ChoiceShape(cfg, n.c);
    }
  }

  lemma SymInOrder(g: Graph, cfg: Config, rank: map<Node, nat>, s: nat)
    requires Represents(g, cfg) && Shape(cfg) && Orders(g, rank) && s < |cfg.syms|
    ensures |WithRanks(cfg, Shifted(rank, cfg.modules)).syms| == |cfg.syms|
    ensures SymOk(WithRanks(cfg, Shifted(rank, cfg.modules)), s)
  {
    var r := Shifted(rank, cfg.modules);
    assert NodeOk(g, S(s)) && NodeOk(g, S(cfg.modules));
    assert g.choiceOf[s].Some? ==> NodeOk(g, C(g.choiceOf[s].value));
    ItemsBelow(g, cfg, rank, S(s), SymItems(cfg, s));
    KeepsShape(cfg, r, s);
    SymOkExact(WithRanks(cfg, r), s);
  }

  lemma KeepsShape(cfg: Config, rank: map<Node, nat>, s: nat)
    requires s < |cfg.syms| && SymShape(cfg, s)
    ensures var cfg' := WithRanks(cfg, rank);
            && |cfg'.syms| == |cfg.syms| && |cfg'.choices| == |cfg.choices| && cfg'.modules == cfg.modules
            && cfg'.syms[s] == cfg.syms[s].(rank := RankOf(rank, S(s)))
            && SymItems(cfg', s) == SymItems(cfg, s) && SymShape(cfg', s)
            && (cfg.syms[s].choice.Some? ==>
                  cfg'.choices[cfg.syms[s].choice.value].rank == RankOf(rank, C(cfg.syms[s].choice.value)))
            && (cfg.modules < |cfg.syms| ==> cfg'.syms[cfg.modules].rank == RankOf(rank, S(cfg.modules)))
  {
    SameShape(cfg, rank);
  }

  lemma ChoiceInOrder(g: Graph, cfg: Config, rank: map<Node, nat>, c: nat)
    requires Represents(g, cfg) && Shape(cfg) && Orders(g, rank) && c < |cfg.choices|
    ensures |WithRanks(cfg, Shifted(rank, cfg.modules)).choices| == |cfg.choices|
    ensures ChoiceOk(WithRanks(cfg, Shifted(rank, cfg.modules)), c)
  {
    SameShape(cfg, Shifted(rank, cfg.modules));
    assert NodeOk(g, C(c)) && NodeOk(g, S(cfg.modules)) && ChoiceShape(cfg, c);
    ItemsBelow(g, cfg, rank, C(c), ChoiceItems(cfg, c));
    ChoiceOkExact(WithRanks(cfg, Shifted(rank, cfg.modules)), c);
  }

  /** Ranks that order the graph make the configuration well-formed. */
  lemma OrderOfConfig(g: Graph, cfg: Config, rank: map<Node, nat>)
    requires Represents(g, cfg) && Shape(cfg) && Orders(g, rank)
    ensures WF(WithRanks(cfg, Shifted(rank, cfg.modules)))
  {
    SameShape(cfg, Shifted(rank, cfg.modules));
    forall s: nat | s < |cfg.syms|
      ensures SymOk(WithRanks(cfg, Shifted(rank, cfg.modules)), s)
    {
      SymInOrder(g, cfg, rank, s);
    }
    forall c: nat | c < |cfg.choices|
      ensures ChoiceOk(WithRanks(cfg, Shifted(rank, cfg.modules)), c)
    {
      ChoiceInOrder(g, cfg, rank, c);
    }
  }

  /** A configuration has the order that its values rest on just when the loop detection is silent and no
      symbol of a choice leads, around the choice, to one that is listed before it. */
  lemma EvaluationOrder(g: Graph, cfg: Config)
    requires Represents(g, cfg) && Shape(cfg)
    ensures (exists rank :: WF(WithRanks(cfg, rank))) <==> CheckAll(g, Unvisited(g), 0).Clean? && Guard(g)
  {
    OrderExact(g);
    if rank :| WF(WithRanks(cfg, rank)) {
      var r := OrderOfGraph(g, cfg, rank);
    }
    if rank :| Orders(g, rank) {
      OrderOfConfig(g, cfg, rank);
    }
  }
}
