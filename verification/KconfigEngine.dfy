/** The object that holds the user's input and the cached values, with the operations of symbols and
    choices as its methods. */
module KconfigEngine {
  import opened KconfigSyntax
  import opened KconfigValues
  import opened KconfigReads
  import opened KconfigOrder
  import opened KconfigCache

  /* What the user's actions mean, without any cache */

  datatype Input = Number(n: int) | Chars(text: string)

  /** For bool and tristate symbols and for choices, n, m and y may be given as text. */
  function Normalized(kind: Kind, value: Input): Input {
    if BoolTri(kind) && value == Chars("n") then Number(0)
    else if BoolTri(kind) && value == Chars("m") then Number(1)
    else if BoolTri(kind) && value == Chars("y") then Number(2)
    else value
  }

  predicate Accepts(cfg: Config, kind: Kind, value: Input) {
    match value
    case Number(n) => (kind == Bool && (n == 0 || n == 2)) || (kind == Tristate && 0 <= n <= 2)
    case Chars(text) =>
      || kind == Text
      || (kind == Int && cfg.toInt(text, 10).Some?)
      || (kind == Hex && cfg.toInt(text, 16).Some? && cfg.toInt(text, 16).value >= 0)
  }

  predicate IsSet(u: User, s: nat, value: Input) {
    match value
    case Number(n) => s in u.tri && u.tri[s] == n
    case Chars(text) => s in u.text && u.text[s] == text
  }

  datatype Outcome = Outcome(user: User, accepted: bool)

  /** The effect of assigning to a symbol. Setting a choice symbol to y makes it the pick. */
  function AssignSym(cfg: Config, u: User, s: nat, value: Input): Outcome
    requires s < |cfg.syms|
  {
    var d := cfg.syms[s];
    var v := Normalized(d.kind, value);
    if IsSet(u, s, v) && d.choice.None? then Outcome(u, true)
    else if !Accepts(cfg, d.kind, v) then Outcome(u, false)
    else
      match v
      case Number(n) =>
        var pick := if d.choice.Some? && n == 2 then u.pick[d.choice.value := s] else u.pick;
        Outcome(u.(tri := u.tri[s := n], pick := pick), true)
      case Chars(text) => Outcome(u.(text := u.text[s := text]), true)
  }

  function ClearSym(u: User, s: nat): User {
    u.(tri := u.tri - {s}, text := u.text - {s})
  }

  function AssignChoice(cfg: Config, u: User, c: nat, value: Input): Outcome
    requires c < |cfg.choices|
  {
    var kind := cfg.choices[c].kind;
    match Normalized(kind, value)
    case Number(n) =>
      if BoolTri(kind) && Accepts(cfg, kind, Number(n)) then Outcome(u.(mode := u.mode[c := n]), true)
      else Outcome(u, c in u.mode && u.mode[c] == n)
    case Chars(_) => Outcome(u, false)
  }

  function ClearChoice(u: User, c: nat): User {
    u.(mode := u.mode - {c}, pick := u.pick - {c})
  }

  /** A request to the configuration: an assignment, the removal of one, or the reading of a value. */
  datatype Op =
    | SetSym(s: nat, value: Input) | UnsetSym(s: nat)
    | SetChoice(c: nat, value: Input) | UnsetChoice(c: nat)
    | Read(slot: Slot)

  datatype Answer = Accepted(ok: bool) | Done | Value(val: Val)

  predicate OpOk(cfg: Config, op: Op) {
    match op
    case SetSym(s, _) => s < |cfg.syms|
    case UnsetSym(s) => s < |cfg.syms|
    case SetChoice(c, _) => c < |cfg.choices|
    case UnsetChoice(c) => c < |cfg.choices|
    case Read(slot) => SlotOk(cfg, slot)
  }

  function NextUser(cfg: Config, u: User, op: Op): User
    requires OpOk(cfg, op)
  {
    match op
    case SetSym(s, value) => AssignSym(cfg, u, s, value).user
    case UnsetSym(s) => ClearSym(u, s)
    case SetChoice(c, value) => AssignChoice(cfg, u, c, value).user
    case UnsetChoice(c) => ClearChoice(u, c)
    case Read(_) => u
  }

  function AnswerTo(cfg: Config, u: User, op: Op): Answer
    requires Ok(cfg, u) && OpOk(cfg, op)
  {
    match op
    case SetSym(s, value) => Accepted(AssignSym(cfg, u, s, value).accepted)
    case UnsetSym(_) => Done
    case SetChoice(c, value) => Accepted(AssignChoice(cfg, u, c, value).accepted)
    case UnsetChoice(_) => Done
    case Read(slot) => Value(Fresh(cfg, u, slot))
  }

  lemma NextUserOk(cfg: Config, u: User, op: Op)
    requires Ok(cfg, u) && OpOk(cfg, op)
    ensures Ok(cfg, NextUser(cfg, u, op))
  {
    if op.SetSym? {
      assert SymOk(cfg, op.s);
    }
  }

  /** The answers to a sequence of requests when every value is computed from scratch. */
  function Answers(cfg: Config, u: User, ops: seq<Op>): seq<Answer>
    requires Ok(cfg, u) && forall k :: 0 <= k < |ops| ==> OpOk(cfg, ops[k])
    decreases |ops|
  {
    if ops == [] then []
    else
      NextUserOk(cfg, u, ops[0]);
      [AnswerTo(cfg, u, ops[0])] + Answers(cfg, NextUser(cfg, u, ops[0]), ops[1..])
  }

  /** The items whose visibility is cached: what an invalidation uses up. */
  ghost function Visible(cache: map<Slot, Val>): set<Slot> {
    set q | q in cache && (q.SVis? || q.CVis?)
  }

  /** The part of an invalidation that is left to do is the dependents of `i` in `rest`. */
  ghost predicate Invalidating(cfg: Config, i: Item, rest: set<Item>, cache: map<Slot, Val>, modes: set<Slot>,
                               cache': map<Slot, Val>, modes': set<Slot>)
  {
    && (forall q :: q in cache' ==> q in cache && cache'[q] == cache[q])
    && modes' <= modes
    && (forall x :: Lost(i, cache, cache', x) ==>
          && (forall q :: q in KconfigCache.Done(cache', modes') ==> Owner(q) != x)
          && (forall y :: y in Dependents(cfg, x) ==> VisOf(y) !in cache' || (x == i && y in rest)))
    && (forall q :: q in KconfigCache.Done(cache, modes) && q !in KconfigCache.Done(cache', modes') ==>
          Lost(i, cache, cache', Owner(q)) || (cache' == map[] && modes' == {}))
    && i != Sym(cfg.modules)
    && (Lost(i, cache, cache', Sym(cfg.modules)) ==> cache' == map[] && modes' == {})
  }

  lemma InvalidatingStart(cfg: Config, i: Item, cache: map<Slot, Val>, modes: set<Slot>,
                          cache': map<Slot, Val>, modes': set<Slot>)
    requires (i.Sym? || i.Choice?) && i != Sym(cfg.modules)
    requires cache' == map q | q in cache && Owner(q) != i :: cache[q]
    requires modes' == set q | q in modes && Owner(q) != i
    ensures Invalidating(cfg, i, Dependents(cfg, i), cache, modes, cache', modes')
    ensures VisOf(i) in cache ==> Visible(cache') < Visible(cache)
  {
    assert forall q :: q in KconfigCache.Done(cache', modes') ==> Owner(q) != i;
    assert VisOf(i) in cache ==> VisOf(i) in Visible(cache) && VisOf(i) !in Visible(cache');
  }

  /** A dependent without a cached visibility is not visited. */
  lemma InvalidatingSkip(cfg: Config, i: Item, rest: set<Item>, y: Item, cache: map<Slot, Val>, modes: set<Slot>,
                         cache': map<Slot, Val>, modes': set<Slot>)
    requires Invalidating(cfg, i, rest, cache, modes, cache', modes') && y in rest && (y.Sym? || y.Choice?)
    requires VisOf(y) !in cache'
    ensures Invalidating(cfg, i, rest - {y}, cache, modes, cache', modes')
  {
  }

  lemma {:induction false} InvalidatingStep(cfg: Config, i: Item, rest: set<Item>, y: Item,
                                             cache: map<Slot, Val>, modes: set<Slot>,
                                             cache': map<Slot, Val>, modes': set<Slot>,
                                             cache'': map<Slot, Val>, modes'': set<Slot>)
    requires Invalidating(cfg, i, rest, cache, modes, cache', modes')
    requires y in rest && rest <= Dependents(cfg, i) && VisOf(y) in cache'
    requires Invalidated(cfg, y, cache', modes', cache'', modes'')
    requires i.Sym? || i.Choice?
    ensures Invalidating(cfg, i, rest - {y}, cache, modes, cache'', modes'')
  {
    VisGone(cfg, y, cache', modes', cache'', modes'');
    forall x | Lost(i, cache, cache'', x)
      ensures forall q :: q in KconfigCache.Done(cache'', modes'') ==> Owner(q) != x
      ensures forall z :: z in Dependents(cfg, x) ==> VisOf(z) !in cache'' || (x == i && z in rest - {y})
    {
      LostEarlierOrLater(i, y, cache, cache', cache'', x);
    }
    forall q | q in KconfigCache.Done(cache, modes) && q !in KconfigCache.Done(cache'', modes'')
      ensures Lost(i, cache, cache'', Owner(q)) || (cache'' == map[] && modes'' == {})
    {
      if q in KconfigCache.Done(cache', modes') {
        assert Lost(y, cache', cache'', Owner(q)) || (cache'' == map[] && modes'' == {});
      }
    }
    if Lost(i, cache, cache'', Sym(cfg.modules)) {
      LostEarlierOrLater(i, y, cache, cache', cache'', Sym(cfg.modules));
    }
  }

  lemma {:induction false} VisGone(cfg: Config, y: Item, cache: map<Slot, Val>, modes: set<Slot>,
                                   cache': map<Slot, Val>, modes': set<Slot>)
    requires y.Sym? || y.Choice?
    requires Invalidated(cfg, y, cache, modes, cache', modes')
    ensures VisOf(y) !in cache'
  {
    assert Lost(y, cache, cache', y);
    assert VisOf(y) in cache' ==> VisOf(y) in KconfigCache.Done(cache', modes') && Owner(VisOf(y)) == y;
  }

  lemma LostEarlierOrLater(i: Item, y: Item, cache: map<Slot, Val>, cache': map<Slot, Val>,
                           cache'': map<Slot, Val>, x: Item)
    requires Lost(i, cache, cache'', x)
    ensures Lost(i, cache, cache', x) || Lost(y, cache', cache'', x)
  {
  }

  class Kconfig {
    const cfg: Config
    var user: User
    var cache: map<Slot, Val>
    ghost var modes: set<Slot>

    ghost predicate Valid()
      reads this
    {
      Ok(cfg, user) && Sound(cfg, user, cache, modes)
    }

    /** The slots whose values have been computed for the current input. */
    ghost function Computed(): set<Slot>
      reads this
    {
      KconfigCache.Done(cache, modes)
    }

    constructor (cfg: Config)
      requires WF(cfg)
      ensures Valid() && this.cfg == cfg && user == User(map[], map[], map[], map[])
    {
      this.cfg := cfg;
      user := User(map[], map[], map[], map[]);
      cache := map[];
      modes := {};
    }

    /* Invalidation */

    /** Forgets the values of one item. */
    method Invalidate(i: Item)
      requires i.Sym? || i.Choice?
      modifies this`cache, this`modes
      ensures cache == map q | q in old(cache) && Owner(q) != i :: old(cache)[q]
      ensures modes == set q | q in old(modes) && Owner(q) != i
    {
      cache := map q | q in cache && Owner(q) != i :: cache[q];
      modes := set q | q in modes && Owner(q) != i;
    }

    /** Invalidates an item and, through their dependents, all items that may depend on it. MODULES
        affects the type of every tristate item, so it takes everything with it. */
    method RecInvalidate(i: Item)
      requires i.Sym? || i.Choice?
      modifies this`cache, this`modes
      ensures Invalidated(cfg, i, old(cache), old(modes), cache, modes)
      decreases Visible(cache), if VisOf(i) in cache then 0 else 1
    {
      if i == Sym(cfg.modules) {
        cache := map[];
        modes := {};
        return;
      }
      Invalidate(i);
      var rest := Dependents(cfg, i);
      InvalidatingStart(cfg, i, old(cache), old(modes), cache, modes);
      while rest != {}
        invariant rest <= Dependents(cfg, i)
        invariant Invalidating(cfg, i, rest, old(cache), old(modes), cache, modes)
        invariant VisOf(i) in old(cache) ==> Visible(cache) < Visible(old(cache))
        decreases rest
      {
        var y :| y in rest;
        if VisOf(y) in cache {
          ghost var cache', modes' := cache, modes;
          assert VisOf(y) in Visible(cache) && Visible(cache) <= Visible(old(cache));
          RecInvalidate(y);
          InvalidatingStep(cfg, i, rest, y, old(cache), old(modes), cache', modes', cache, modes);
        } else {
          InvalidatingSkip(cfg, i, rest, y, old(cache), old(modes), cache, modes);
        }
        rest := rest - {y};
      }
    }

    method RecInvalidateIfHasPrompt(s: nat)
      requires s < |cfg.syms|
      modifies this`cache, this`modes
      ensures cfg.syms[s].prompts == [] ==> cache == old(cache) && modes == old(modes)
      ensures cfg.syms[s].prompts != [] ==> Invalidated(cfg, Sym(s), old(cache), old(modes), cache, modes)
    {
      if cfg.syms[s].prompts != [] {
        RecInvalidate(Sym(s));
      }
    }

    /* Evaluation */

    /** The cache stays sound when one more slot counts as computed. */
    lemma {:induction false} Restored(cache0: map<Slot, Val>, modes0: set<Slot>, q: Slot)
      requires Ok(cfg, user) && SlotOk(cfg, q) && Sound(cfg, user, cache0, modes0)
      requires Computed() == KconfigCache.Done(cache0, modes0) + {q}
      requires Reads(cfg, user, q) <= Computed() && Backed(cfg, cache, q)
      requires if q.CTri? then cache == cache0 && modes == modes0 + {q}
               else cache == cache0[q := Fresh(cfg, user, q)] && modes == modes0
      ensures Valid()
    {
      forall r | r in Computed() && r != q
        ensures Backed(cfg, cache, r)
      {
        assert Backed(cfg, cache0, r);
      }
    }

    /** Records a value that has just been computed. */
    method Store(q: Slot, v: Val)
      requires Valid() && SlotOk(cfg, q) && !q.CTri?
      requires v == Fresh(cfg, user, q) && Reads(cfg, user, q) <= Computed()
      requires q == VisOf(Owner(q)) || Backed(cfg, cache, q)
      modifies this`cache
      ensures Valid() && cache == old(cache)[q := v]
      ensures Computed() == old(Computed()) + {q}
    {
      cache := cache[q := v];
      assert Computed() == old(Computed()) + {q};
      Restored(old(cache), old(modes), q);
    }

    /** Notes that the mode of a choice has been computed; the mode itself is not cached. */
    ghost method RecordMode(c: nat)
      requires Valid() && c < |cfg.choices|
      requires ChoiceTriReads(cfg, user, c) <= Computed()
      modifies this`modes
      ensures Valid() && Computed() == old(Computed()) + {CTri(c)}
    {
      modes := modes + {CTri(c)};
      assert Computed() == old(Computed()) + {CTri(c)};
      assert CVis(c) in cache;
      Restored(old(cache), old(modes), CTri(c));
    }

    method ItemTriValue(b: nat, i: Item) returns (v: Tri)
      requires Valid() && Below(cfg, b, i)
      modifies this`cache, this`modes
      ensures Valid() && old(Computed()) <= Computed()
      ensures v == ItemTri(cfg, user, b, i) && ItemReads(i) <= Computed()
      decreases b, 0
    {
      match i
      case Sym(s) => v := TriValue(s);
      case Choice(c) => v := ChoiceTriValue(c);
      case TriConst(t) => v := t;
      case StrConst(_) => v := 0;
    }

    method ItemStrValue(b: nat, i: Item) returns (v: string)
      requires Valid() && Below(cfg, b, i) && IsSymbol(i)
      modifies this`cache, this`modes
      ensures Valid() && old(Computed()) <= Computed()
      ensures v == ItemStr(cfg, user, b, i) && TextReads(i) <= Computed()
      decreases b, 0
    {
      match i
      case Sym(s) => v := StrValue(s);
      case TriConst(t) => v := TriText(t);
      case StrConst(text) => v := text;
    }

    method SymToNum(b: nat, i: Item) returns (n: Option<int>)
      requires Valid() && Below(cfg, b, i) && IsSymbol(i)
      modifies this`cache, this`modes
      ensures Valid() && old(Computed()) <= Computed()
      ensures n == ItemNum(cfg, user, b, i) && NumReads(cfg, i) <= Computed()
      decreases b, 1
    {
      if BoolTri(KindOf(cfg, i)) {
        var v := ItemTriValue(b, i);
        n := Some(v);
      } else {
        var text := ItemStrValue(b, i);
        n := cfg.toInt(text, Base(KindOf(cfg, i)));
      }
    }

    method CompareItems(b: nat, x: Item, y: Item) returns (comp: int)
      requires Valid() && Below(cfg, b, x) && Below(cfg, b, y) && IsSymbol(x) && IsSymbol(y)
      modifies this`cache, this`modes
      ensures Valid() && old(Computed()) <= Computed()
      ensures comp == Compare(cfg, user, b, x, y) && RelReads(cfg, user, b, x, y) <= Computed()
      decreases b, 3
    {
      if !(KindOf(cfg, x) == Text && KindOf(cfg, y) == Text) {
        var m := SymToNum(b, x);
        if m.Some? {
          var n := SymToNum(b, y);
          if n.Some? {
            comp := m.value - n.value;
            assert !AsText(cfg, user, b, x, y);
            return;
          }
        }
      }
      assert AsText(cfg, user, b, x, y);
      var s1 := ItemStrValue(b, x);
      var s2 := ItemStrValue(b, y);
      comp := Strcmp(s1, s2);
    }

    method Evaluate(b: nat, e: Expr) returns (v: Tri)
      requires Valid() && ExprBelow(cfg, b, e)
      modifies this`cache, this`modes
      ensures Valid() && old(Computed()) <= Computed()
      ensures v == ExprValue(cfg, user, b, e) && ExprReads(cfg, user, b, e) <= Computed()
      decreases b, 4, e
    {
      match e
      case Atom(i) => v := ItemTriValue(b, i);
      case And(l, r) =>
        v := Evaluate(b, l);
        if v != 0 {
          var w := Evaluate(b, r);
          v := Min(v, w);
        }
      case Or(l, r) =>
        v := Evaluate(b, l);
        if v != 2 {
          var w := Evaluate(b, r);
          v := Max(v, w);
        }
      case Not(f) =>
        v := Evaluate(b, f);
        v := 2 - v;
      case Rel(op, x, y) =>
        var comp := CompareItems(b, x, y);
        v := Holds(op, comp);
    }

    method PromptVisibility(b: nat, ps: seq<Expr>) returns (vis: Tri)
      requires Valid() && forall k :: 0 <= k < |ps| ==> ExprBelow(cfg, b, ps[k])
      modifies this`cache, this`modes
      ensures Valid() && old(Computed()) <= Computed()
      ensures vis == PromptMax(cfg, user, b, ps) && PromptReads(cfg, user, b, ps) <= Computed()
      decreases b, 5
    {
      vis := 0;
      for k := 0 to |ps|
        invariant Valid() && old(Computed()) <= Computed()
        invariant vis == PromptMax(cfg, user, b, ps[..k]) && PromptReads(cfg, user, b, ps[..k]) <= Computed()
      {
        var v := Evaluate(b, ps[k]);
        vis := Max(vis, v);
        assert ps[..k + 1][..k] == ps[..k];
      }
      assert ps[..|ps|] == ps;
    }

    method SymType(s: nat) returns (kind: Kind)
      requires Valid() && s < |cfg.syms|
      modifies this`cache, this`modes
      ensures Valid() && old(Computed()) <= Computed()
      ensures kind == SymKind(cfg, user, s) && KindReads(cfg, user, s) <= Computed()
      decreases cfg.syms[s].rank, 0
    {
      var d := cfg.syms[s];
      assert SymOk(cfg, s);
      kind := d.kind;
      if d.kind == Tristate {
        if d.choice.Some? {
          var mode := ChoiceTriValue(d.choice.value);
          if mode == 2 {
            return Bool;
          }
        }
        var modules := TriValue(cfg.modules);
        if modules == 0 {
          kind := Bool;
        }
      }
    }

    method ChoiceType(c: nat) returns (kind: Kind)
      requires Valid() && c < |cfg.choices|
      modifies this`cache, this`modes
      ensures Valid() && old(Computed()) <= Computed()
      ensures kind == ChoiceKind(cfg, user, c) && ChoiceKindReads(cfg, c) <= Computed()
      decreases cfg.choices[c].rank, 0
    {
      assert ChoiceOk(cfg, c);
      kind := cfg.choices[c].kind;
      if kind == Tristate {
        var modules := TriValue(cfg.modules);
        if modules == 0 {
          kind := Bool;
        }
      }
    }

    method Visibility(s: nat) returns (vis: Tri)
      requires Valid() && s < |cfg.syms|
      modifies this`cache, this`modes
      ensures Valid() && old(Computed()) <= Computed()
      ensures vis == SymVis(cfg, user, s) && SVis(s) in cache
      decreases cfg.syms[s].rank, 6
    {
      if SVis(s) in cache {
        assert cache[SVis(s)] == Fresh(cfg, user, SVis(s));
        return cache[SVis(s)].vis;
      }
      var d := cfg.syms[s];
      assert SymOk(cfg, s);
      vis := PromptVisibility(d.rank, d.prompts);
      var raw := vis;
      if d.choice.Some? && cfg.choices[d.choice.value].kind == Tristate && d.kind != Tristate {
        var mode := ChoiceTriValue(d.choice.value);
        if mode != 2 {
          vis := 0;
        }
      } else if d.choice.Some? && d.kind == Tristate && vis == 1 {
        var mode := ChoiceTriValue(d.choice.value);
        if mode == 2 {
          vis := 0;
        }
      }
      if vis == 1 {
        var kind := SymType(s);
        if kind != Tristate {
          vis := 2;
        }
      }
      Store(SVis(s), VisVal(vis));
    }

    method ChoiceVisibility(c: nat) returns (vis: Tri)
      requires Valid() && c < |cfg.choices|
      modifies this`cache, this`modes
      ensures Valid() && old(Computed()) <= Computed()
      ensures vis == ChoiceVis(cfg, user, c) && CVis(c) in cache
      decreases cfg.choices[c].rank, 6
    {
      if CVis(c) in cache {
        assert cache[CVis(c)] == Fresh(cfg, user, CVis(c));
        return cache[CVis(c)].vis;
      }
      var d := cfg.choices[c];
      assert ChoiceOk(cfg, c);
      vis := PromptVisibility(d.rank, d.prompts);
      if vis == 1 {
        var kind := ChoiceType(c);
        if kind != Tristate {
          vis := 2;
        }
      }
      Store(CVis(c), VisVal(vis));
    }

    method ChoiceTriValue(c: nat) returns (val: Tri)
      requires Valid() && c < |cfg.choices|
      modifies this`cache, this`modes
      ensures Valid() && old(Computed()) <= Computed()
      ensures val == ChoiceTri(cfg, user, c) && CTri(c) in Computed()
      decreases cfg.choices[c].rank, 8
    {
      val := if cfg.choices[c].optional then 0 else 1;
      if c in user.mode {
        val := Max(val, user.mode[c]);
      }
      var vis := ChoiceVisibility(c);
      val := Min(val, vis);
      if val == 1 {
        var kind := ChoiceType(c);
        if kind == Bool {
          val := 2;
        }
      }
      assert CVis(c) in Computed();
      RecordMode(c);
    }

    /** Whether default selection `k` has a condition that holds and a visible symbol. */
    method PickApplies(c: nat, k: nat) returns (yes: bool)
      requires Valid() && c < |cfg.choices| && k < |cfg.choices[c].picks|
      modifies this`cache, this`modes
      ensures Valid() && old(Computed()) <= Computed()
      ensures (PickOk(cfg, c, k); ChoiceSym(cfg, c, cfg.choices[c].picks[k].sym);
               yes <==> ExprValue(cfg, user, cfg.choices[c].rank, cfg.choices[c].picks[k].cond) != 0
                        && SymVis(cfg, user, cfg.choices[c].picks[k].sym) != 0)
      ensures PickReads(cfg, user, c, k) <= Computed()
      decreases cfg.choices[c].rank + 1, 7
    {
      var d := cfg.choices[c];
      PickOk(cfg, c, k);
      ChoiceSym(cfg, c, d.picks[k].sym);
      var cond := Evaluate(d.rank, d.picks[k].cond);
      yes := false;
      if cond != 0 {
        var vis := Visibility(d.picks[k].sym);
        assert SVis(d.picks[k].sym) in Computed();
        yes := vis != 0;
      }
    }

    method SelectionFromDefaults(c: nat) returns (sel: Option<nat>)
      requires Valid() && c < |cfg.choices|
      modifies this`cache, this`modes
      ensures Valid() && old(Computed()) <= Computed()
      ensures sel == DefaultPick(cfg, user, c, 0) && DefaultPickReads(cfg, user, c, 0) <= Computed()
      decreases cfg.choices[c].rank + 1, 8
    {
      var d := cfg.choices[c];
      for k := 0 to |d.picks|
        invariant Valid() && old(Computed()) <= Computed()
        invariant DefaultPick(cfg, user, c, 0) == DefaultPick(cfg, user, c, k)
        invariant DefaultPickReads(cfg, user, c, 0) <= Computed() + DefaultPickReads(cfg, user, c, k)
      {
        var applies := PickApplies(c, k);
        DefaultPickStep(cfg, user, c, k);
        if applies {
          return Some(d.picks[k].sym);
        }
      }
      sel := FirstVisibleSym(c);
    }

    method FirstVisibleSym(c: nat) returns (sel: Option<nat>)
      requires Valid() && c < |cfg.choices|
      modifies this`cache, this`modes
      ensures Valid() && old(Computed()) <= Computed()
      ensures sel == FirstVisible(cfg, user, c, 0) && FirstVisibleReads(cfg, user, c, 0) <= Computed()
      decreases cfg.choices[c].rank + 1, 7
    {
      var d := cfg.choices[c];
      for k := 0 to |d.syms|
        invariant Valid() && old(Computed()) <= Computed()
        invariant FirstVisible(cfg, user, c, 0) == FirstVisible(cfg, user, c, k)
        invariant FirstVisibleReads(cfg, user, c, 0) <= Computed() + FirstVisibleReads(cfg, user, c, k)
      {
        ChoiceSym(cfg, c, d.syms[k]);
        var vis := Visibility(d.syms[k]);
        assert SVis(d.syms[k]) in Computed();
        if vis != 0 {
          return Some(d.syms[k]);
        }
      }
      sel := None;
    }

    method SelectionOf(c: nat) returns (sel: Option<nat>)
      requires Valid() && c < |cfg.choices|
      modifies this`cache, this`modes
      ensures Valid() && old(Computed()) <= Computed()
      ensures sel == Selection(cfg, user, c) && CSel(c) in cache
      decreases cfg.choices[c].rank + 1, 9, 0
    {
      if CSel(c) in cache {
        assert cache[CSel(c)] == Fresh(cfg, user, CSel(c));
        return cache[CSel(c)].sel;
      }
      var mode := ChoiceTriValue(c);
      sel := None;
      if mode == 2 {
        if c in user.pick {
          ChoiceSym(cfg, c, user.pick[c]);
          var vis := Visibility(user.pick[c]);
          if vis != 0 {
            sel := Some(user.pick[c]);
          }
        }
        if sel.None? {
          sel := SelectionFromDefaults(c);
        }
      }
      assert CTri(c) in Computed() && Backed(cfg, cache, CTri(c));
      Store(CSel(c), SelVal(sel));
    }

    method DefaultTriValue(b: nat, ds: seq<Default>) returns (res: TriRes)
      requires Valid()
      requires forall j :: 0 <= j < |ds| ==> ExprBelow(cfg, b, ds[j].value) && ExprBelow(cfg, b, ds[j].cond)
      modifies this`cache, this`modes
      ensures Valid() && old(Computed()) <= Computed()
      ensures res == DefaultTri(cfg, user, b, ds, 0) && DefaultTriReads(cfg, user, b, ds, 0) <= Computed()
      decreases b, 5
    {
      for k := 0 to |ds|
        invariant Valid() && old(Computed()) <= Computed()
        invariant DefaultTri(cfg, user, b, ds, 0) == DefaultTri(cfg, user, b, ds, k)
        invariant DefaultTriReads(cfg, user, b, ds, 0) <= Computed() + DefaultTriReads(cfg, user, b, ds, k)
      {
        var cond := Evaluate(b, ds[k].cond);
        if cond != 0 {
          var val := Evaluate(b, ds[k].value);
          val := Min(val, cond);
          return TriRes(val, val != 0);
        }
      }
      res := TriRes(0, false);
    }

    /** The value before selects of a symbol outside choices. */
    method BaseTriValue(s: nat) returns (res: TriRes)
      requires Valid() && s < |cfg.syms|
      modifies this`cache, this`modes
      ensures Valid() && old(Computed()) <= Computed()
      ensures res == BaseTri(cfg, user, s) && BaseTriReads(cfg, user, s) <= Computed()
      decreases cfg.syms[s].rank, 7
    {
      var d := cfg.syms[s];
      assert SymOk(cfg, s);
      var vis := Visibility(s);
      assert SVis(s) in Computed();
      if vis != 0 && s in user.tri {
        res := TriRes(Min(user.tri[s], vis), true);
      } else {
        var def := DefaultTriValue(d.rank, d.defaults);
        res := TriRes(def.val, vis != 0 || def.write);
        var weak := Evaluate(d.rank, d.weakRevDep);
        if weak != 0 {
          var direct := Evaluate(d.rank, d.directDep);
          if direct != 0 {
            res := TriRes(Max(weak, res.val), true);
          }
        }
      }
    }

    method TriValue(s: nat) returns (val: Tri)
      requires Valid() && s < |cfg.syms|
      modifies this`cache, this`modes
      ensures Valid() && old(Computed()) <= Computed()
      ensures val == SymTri(cfg, user, s).val && STri(s) in cache
      decreases cfg.syms[s].rank, 10
    {
      if STri(s) in cache {
        assert cache[STri(s)] == Fresh(cfg, user, STri(s));
        return cache[STri(s)].tri.val;
      }
      var d := cfg.syms[s];
      assert SymOk(cfg, s);
      if !BoolTri(d.kind) {
        Store(STri(s), TriVal(TriRes(0, false)));
        return 0;
      }
      var res: TriRes;
      if d.choice.None? {
        res := PlainTriValue(s);
      } else {
        res := ChoiceSymTriValue(s);
      }
      Store(STri(s), TriVal(res));
      val := res.val;
    }

    /** The value of a bool or tristate symbol outside choices. */
    method PlainTriValue(s: nat) returns (res: TriRes)
      requires Valid() && s < |cfg.syms| && BoolTri(cfg.syms[s].kind) && cfg.syms[s].choice.None?
      modifies this`cache, this`modes
      ensures Valid() && old(Computed()) <= Computed()
      ensures res == SymTri(cfg, user, s) && SymTriReads(cfg, user, s) <= Computed() && SVis(s) in cache
      decreases cfg.syms[s].rank, 9
    {
      var d := cfg.syms[s];
      assert SymOk(cfg, s);
      res := BaseTriValue(s);
      var rev := Evaluate(d.rank, d.revDep);
      if rev != 0 {
        res := TriRes(Max(rev, res.val), true);
      }
      if res.val == 1 {
        var kind := SymType(s);
        if kind == Bool {
          res := res.(val := 2);
        } else {
          var weak := Evaluate(d.rank, d.weakRevDep);
          if weak == 2 {
            res := res.(val := 2);
          }
        }
      }
      assert SVis(s) in Computed();
    }

    /** The value of a bool or tristate symbol of a choice. */
    method ChoiceSymTriValue(s: nat) returns (res: TriRes)
      requires Valid() && s < |cfg.syms| && BoolTri(cfg.syms[s].kind) && cfg.syms[s].choice.Some?
      modifies this`cache, this`modes
      ensures Valid() && old(Computed()) <= Computed()
      ensures res == SymTri(cfg, user, s) && SymTriReads(cfg, user, s) <= Computed() && SVis(s) in cache
      decreases cfg.syms[s].rank, 9, 1
    {
      var d := cfg.syms[s];
      assert SymOk(cfg, s);
      var vis := Visibility(s);
      assert SVis(s) in Computed();
      res := TriRes(0, vis != 0);
      if vis == 2 {
        var sel := SelectionOf(d.choice.value);
        assert CSel(d.choice.value) in Computed();
        if sel == Some(s) {
          res := res.(val := 2);
        }
      } else if vis != 0 && s in user.tri && user.tri[s] != 0 {
        res := res.(val := 1);
      }
      assert SVis(s) in Computed();
    }

    method DefaultStrValue(b: nat, ds: seq<Default>) returns (res: Option<string>)
      requires Valid()
      requires forall j :: 0 <= j < |ds| ==>
                             && ExprBelow(cfg, b, ds[j].value) && ExprBelow(cfg, b, ds[j].cond)
                             && ds[j].value.Atom? && IsSymbol(ds[j].value.item)
      modifies this`cache, this`modes
      ensures Valid() && old(Computed()) <= Computed()
      ensures res == DefaultStr(cfg, user, b, ds, 0) && DefaultStrReads(cfg, user, b, ds, 0) <= Computed()
      decreases b, 5
    {
      for k := 0 to |ds|
        invariant Valid() && old(Computed()) <= Computed()
        invariant DefaultStr(cfg, user, b, ds, 0) == DefaultStr(cfg, user, b, ds, k)
        invariant DefaultStrReads(cfg, user, b, ds, 0) <= Computed() + DefaultStrReads(cfg, user, b, ds, k)
      {
        var cond := Evaluate(b, ds[k].cond);
        if cond != 0 {
          assert ExprBelow(cfg, b, ds[k].value);
          var text := ItemStrValue(b, ds[k].value.item);
          return Some(text);
        }
      }
      res := None;
    }

    method RangeInEffect(b: nat, base: nat, rs: seq<Range>) returns (res: Option<(int, int)>)
      requires Valid()
      requires forall j :: 0 <= j < |rs| ==>
                             && IsSymbol(rs[j].low) && IsSymbol(rs[j].high)
                             && Below(cfg, b, rs[j].low) && Below(cfg, b, rs[j].high) && ExprBelow(cfg, b, rs[j].cond)
      modifies this`cache, this`modes
      ensures Valid() && old(Computed()) <= Computed()
      ensures res == ActiveRange(cfg, user, b, base, rs, 0) && RangeReads(cfg, user, b, rs, 0) <= Computed()
      decreases b, 5
    {
      for k := 0 to |rs|
        invariant Valid() && old(Computed()) <= Computed()
        invariant ActiveRange(cfg, user, b, base, rs, 0) == ActiveRange(cfg, user, b, base, rs, k)
        invariant RangeReads(cfg, user, b, rs, 0) <= Computed() + RangeReads(cfg, user, b, rs, k)
      {
        var cond := Evaluate(b, rs[k].cond);
        if cond != 0 {
          var low := ItemStrValue(b, rs[k].low);
          var high := ItemStrValue(b, rs[k].high);
          return Some((KconfigValues.Number(cfg, low, base), KconfigValues.Number(cfg, high, base)));
        }
      }
      res := None;
    }

    method StrValue(s: nat) returns (val: string)
      requires Valid() && s < |cfg.syms|
      modifies this`cache, this`modes
      ensures Valid() && old(Computed()) <= Computed()
      ensures val == SymStr(cfg, user, s).val && SStr(s) in cache
      decreases cfg.syms[s].rank, 11
    {
      if SStr(s) in cache {
        assert cache[SStr(s)] == Fresh(cfg, user, SStr(s));
        return cache[SStr(s)].str.val;
      }
      var d := cfg.syms[s];
      assert SymOk(cfg, s);
      var res: StrRes;
      if BoolTri(d.kind) {
        var tri := TriValue(s);
        assert STri(s) in Computed() && Backed(cfg, cache, STri(s));
        assert cache[STri(s)] == Fresh(cfg, user, STri(s));
        res := StrRes(TriText(tri), cache[STri(s)].tri.write);
      } else if d.kind == Unknown {
        res := StrRes(d.name, false);
      } else {
        var vis := Visibility(s);
        assert SVis(s) in Computed();
        var range := None;
        if IntHex(d.kind) {
          range := RangeInEffect(d.rank, Base(d.kind), d.ranges);
        }
        if && vis != 0 && s in user.text
           && (d.kind == Text
               || (user.text[s] != "" && InRange(range, KconfigValues.Number(cfg, user.text[s], Base(d.kind))))) {
          res := StrRes(user.text[s], true);
        } else {
          var def := DefaultStrValue(d.rank, d.defaults);
          var text := if def.Some? then def.value else "";
          if IntHex(d.kind) {
            text := Clamped(cfg, d.kind, range, def);
          }
          res := StrRes(text, vis != 0 || def.Some?);
        }
      }
      Store(SStr(s), StrVal(res));
      val := res.val;
    }

    /** Whether m is promoted to y for the symbol. */
    method Promoted(s: nat) returns (yes: bool)
      requires Valid() && s < |cfg.syms|
      modifies this`cache, this`modes
      ensures Valid() && old(Computed()) <= Computed()
      ensures assert SymOk(cfg, s);
              yes == (SymKind(cfg, user, s) == Bool ||
                  ExprValue(cfg, user, cfg.syms[s].rank, cfg.syms[s].weakRevDep) == 2)
      ensures assert SymOk(cfg, s);
              KindReads(cfg, user, s) <= Computed()
              && (SymKind(cfg, user, s) != Bool ==>
                    ExprReads(cfg, user, cfg.syms[s].rank, cfg.syms[s].weakRevDep) <= Computed())
    {
      assert SymOk(cfg, s);
      var kind := SymType(s);
      yes := kind == Bool;
      if !yes {
        var weak := Evaluate(cfg.syms[s].rank, cfg.syms[s].weakRevDep);
        yes := weak == 2;
      }
    }

    method Assignable(s: nat) returns (vals: seq<Tri>)
      requires Valid() && s < |cfg.syms|
      modifies this`cache, this`modes
      ensures Valid() && old(Computed()) <= Computed()
      ensures vals == SymAssignable(cfg, user, s) && SAsg(s) in cache
    {
      if SAsg(s) in cache {
        assert cache[SAsg(s)] == Fresh(cfg, user, SAsg(s));
        return cache[SAsg(s)].asg;
      }
      var d := cfg.syms[s];
      assert SymOk(cfg, s);
      if !BoolTri(d.kind) {
        vals := [];
        Store(SAsg(s), AsgVal(vals));
        return;
      }
      var vis := Visibility(s);
      assert SVis(s) in Computed();
      vals := [];
      if vis != 0 {
        var rev := Evaluate(d.rank, d.revDep);
        if vis == 2 {
          if d.choice.Some? || rev == 2 {
            vals := [2];
          } else {
            var promoted := Promoted(s);
            if rev == 0 {
              vals := if promoted then [0, 2] else [0, 1, 2];
            } else {
              vals := if promoted then [2] else [1, 2];
            }
          }
        } else if rev == 0 {
          var weak := Evaluate(d.rank, d.weakRevDep);
          vals := if weak != 2 then [0, 1] else [0, 2];
        } else {
          vals := if rev == 2 then [2] else [1];
        }
      }
      assert SVis(s) in Computed();
      Store(SAsg(s), AsgVal(vals));
    }

    method AssignableModes(c: nat) returns (vals: seq<Tri>)
      requires Valid() && c < |cfg.choices|
      modifies this`cache, this`modes
      ensures Valid() && old(Computed()) <= Computed()
      ensures vals == ChoiceAssignable(cfg, user, c) && CAsg(c) in cache
    {
      if CAsg(c) in cache {
        assert cache[CAsg(c)] == Fresh(cfg, user, CAsg(c));
        return cache[CAsg(c)].asg;
      }
      var vis := ChoiceVisibility(c);
      assert CVis(c) in Computed();
      var optional := cfg.choices[c].optional;
      if vis == 0 {
        vals := [];
      } else if vis == 2 {
        var kind := ChoiceType(c);
        if !optional {
          vals := if kind == Bool then [2] else [1, 2];
        } else {
          vals := if kind == Bool then [0, 2] else [0, 1, 2];
        }
      } else {
        vals := if optional then [0, 1] else [1];
      }
      assert CVis(c) in Computed();
      Store(CAsg(c), AsgVal(vals));
    }

    /* Assignments */

    /** Sets a symbol of a choice to y. Only the choice is invalidated: the symbol depends on it. */
    method SetPick(s: nat, c: nat)
      requires Valid() && s < |cfg.syms| && cfg.syms[s].choice == Some(c) && BoolTri(cfg.syms[s].kind)
      modifies this
      ensures Valid() && user == old(user).(tri := old(user).tri[s := 2], pick := old(user).pick[c := s])
    {
      assert SymOk(cfg, s);
      user := user.(tri := user.tri[s := 2], pick := user.pick[c := s]);
      RecInvalidate(Choice(c));
      PickChangeCovered(old(user), s, c, old(cache), old(modes));
    }

    /** A pick changes the inputs of the choice and of the picked symbol only. */
    lemma PickChangeCovered(was: User, s: nat, c: nat, cache0: map<Slot, Val>, modes0: set<Slot>)
      requires s < |cfg.syms| && cfg.syms[s].choice == Some(c) && BoolTri(cfg.syms[s].kind)
      requires Ok(cfg, was) && Sound(cfg, was, cache0, modes0)
      requires user == was.(tri := was.tri[s := 2], pick := was.pick[c := s])
      requires c < |cfg.choices| && Invalidated(cfg, Choice(c), cache0, modes0, cache, modes)
      ensures Valid()
    {
      assert SymOk(cfg, s);
      assert Sym(s) in Dependents(cfg, Choice(c));
      assert Ok(cfg, user);
      forall q | SlotOk(cfg, q) && Owner(q) != Choice(c) && Owner(q) != Sym(s)
        ensures SameInput(cfg, was, user, q)
      {
        PickInput(was, s, c, q);
      }
      ChangeCovered(was, Choice(c), cache0, modes0);
    }

    lemma PickInput(was: User, s: nat, c: nat, q: Slot)
      requires SlotOk(cfg, q) && Owner(q) != Choice(c) && Owner(q) != Sym(s)
      requires user == was.(tri := was.tri[s := 2], pick := was.pick[c := s])
      ensures SameInput(cfg, was, user, q)
    {
    }

    method SetValue(s: nat, value: Input) returns (ok: bool)
      requires Valid() && s < |cfg.syms|
      modifies this
      ensures Valid() && Outcome(user, ok) == AssignSym(cfg, old(user), s, value)
    {
      var d := cfg.syms[s];
      assert SymOk(cfg, s);
      var v := Normalized(d.kind, value);
      if IsSet(user, s, v) && d.choice.None? {
        return true;
      }
      if !Accepts(cfg, d.kind, v) {
        return false;
      }
      ok := true;
      match v
      case Number(n) =>
        if d.choice.Some? && n == 2 {
          SetPick(s, d.choice.value);
        } else {
          user := user.(tri := user.tri[s := n]);
          RecInvalidateIfHasPrompt(s);
          PromptChangeCovered(old(user), s, old(cache), old(modes));
        }
      case Chars(text) =>
        user := user.(text := user.text[s := text]);
        RecInvalidateIfHasPrompt(s);
        PromptChangeCovered(old(user), s, old(cache), old(modes));
    }

    /** A change of a symbol's own value is covered by the invalidation of the symbol, and has no
        effect if the symbol has no prompt. */
    lemma PromptChangeCovered(was: User, s: nat, cache0: map<Slot, Val>, modes0: set<Slot>)
      requires s < |cfg.syms| && Ok(cfg, was) && Ok(cfg, user) && Sound(cfg, was, cache0, modes0)
      requires cfg.syms[s].prompts == [] ==> cache == cache0 && modes == modes0
      requires cfg.syms[s].prompts != [] ==> Invalidated(cfg, Sym(s), cache0, modes0, cache, modes)
      requires forall q :: SlotOk(cfg, q) && Owner(q) != Sym(s) ==> SameInput(cfg, was, user, q)
      ensures Valid()
    {
      if cfg.syms[s].prompts == [] {
        forall q | q in Computed()
          ensures Fresh(cfg, was, q) == Fresh(cfg, user, q) && Reads(cfg, was, q) == Reads(cfg, user, q)
        {
          Stable(cfg, was, user, Computed(), q);
        }
      } else {
        assert Lost(Sym(s), cache0, cache, Sym(s));
        InvalidatedSound(cfg, was, user, Sym(s), cache0, modes0, cache, modes);
      }
    }

    /** The invalidation of an item covers a change of its own input, and one of an item that depends
        on it immediately. */
    lemma ChangeCovered(was: User, i: Item, cache0: map<Slot, Val>, modes0: set<Slot>)
      requires Ok(cfg, was) && Ok(cfg, user) && Sound(cfg, was, cache0, modes0)
      requires (i.Sym? || i.Choice?) && Invalidated(cfg, i, cache0, modes0, cache, modes)
      requires forall q :: SlotOk(cfg, q) && Owner(q) != i && !Fixed(cfg, q) && Owner(q) !in Dependents(cfg, i) ==>
                             SameInput(cfg, was, user, q)
      requires forall q :: SlotOk(cfg, q) && Fixed(cfg, q) ==> SameInput(cfg, was, user, q)
      ensures Valid()
    {
      assert Lost(i, cache0, cache, i);
      forall q | q in Computed() && SlotOk(cfg, q)
        ensures SameInput(cfg, was, user, q)
      {
        assert q in KconfigCache.Done(cache0, modes0) && Backed(cfg, cache0, q);
        NotLost(cfg, i, cache0, modes0, cache, modes, q);
      }
      InvalidatedSound(cfg, was, user, i, cache0, modes0, cache, modes);
    }

    method UnsetValue(s: nat)
      requires Valid() && s < |cfg.syms|
      modifies this
      ensures Valid() && user == ClearSym(old(user), s)
    {
      if s in user.tri || s in user.text {
        user := user.(tri := user.tri - {s}, text := user.text - {s});
        RecInvalidateIfHasPrompt(s);
        PromptChangeCovered(old(user), s, old(cache), old(modes));
      } else {
        assert user.tri - {s} == user.tri && user.text - {s} == user.text;
      }
    }

    method SetMode(c: nat, value: Input) returns (ok: bool)
      requires Valid() && c < |cfg.choices|
      modifies this
      ensures Valid() && Outcome(user, ok) == AssignChoice(cfg, old(user), c, value)
    {
      var kind := cfg.choices[c].kind;
      var v := Normalized(kind, value);
      if v.Number? && c in user.mode && v.n == user.mode[c] {
        assert user.mode[c := v.n] == user.mode;
        return true;
      }
      if !(v.Number? && BoolTri(kind) && Accepts(cfg, kind, v)) {
        return false;
      }
      user := user.(mode := user.mode[c := v.n]);
      RecInvalidate(Choice(c));
      ChangeCovered(old(user), Choice(c), old(cache), old(modes));
      ok := true;
    }

    method UnsetMode(c: nat)
      requires Valid() && c < |cfg.choices|
      modifies this
      ensures Valid() && user == ClearChoice(old(user), c)
    {
      if c in user.mode || c in user.pick {
        user := user.(mode := user.mode - {c}, pick := user.pick - {c});
        RecInvalidate(Choice(c));
        ChangeCovered(old(user), Choice(c), old(cache), old(modes));
      } else {
        assert user.mode - {c} == user.mode && user.pick - {c} == user.pick;
      }
    }

    /* Runs */

    method ReadSlot(q: Slot) returns (v: Val)
      requires Valid() && SlotOk(cfg, q)
      modifies this`cache, this`modes
      ensures Valid() && v == Fresh(cfg, user, q)
    {
      match q
      case SVis(s) => var x := Visibility(s); v := VisVal(x);
      case STri(s) => var x := TriValue(s); v := cache[q]; assert v == Fresh(cfg, user, q);
      case SStr(s) => var x := StrValue(s); v := cache[q]; assert v == Fresh(cfg, user, q);
      case SAsg(s) => var x := Assignable(s); v := AsgVal(x);
      case CVis(c) => var x := ChoiceVisibility(c); v := VisVal(x);
      case CTri(c) => var x := ChoiceTriValue(c); v := VisVal(x);
      case CSel(c) => var x := SelectionOf(c); v := SelVal(x);
      case CAsg(c) => var x := AssignableModes(c); v := AsgVal(x);
    }

    method Perform(op: Op) returns (answer: Answer)
      requires Valid() && OpOk(cfg, op)
      modifies this
      ensures Valid() && user == NextUser(cfg, old(user), op) && answer == AnswerTo(cfg, old(user), op)
    {
      match op
      case SetSym(s, value) => var ok := SetValue(s, value); answer := Accepted(ok);
      case UnsetSym(s) => UnsetValue(s); answer := Done;
      case SetChoice(c, value) => var ok := SetMode(c, value); answer := Accepted(ok);
      case UnsetChoice(c) => UnsetMode(c); answer := Done;
      case Read(slot) => var v := ReadSlot(slot); answer := Value(v);
    }

    /** Any sequence of assignments, removals and reads gives the answers of an evaluator that
        caches nothing. */
    method Run(ops: seq<Op>) returns (answers: seq<Answer>)
      requires Valid() && forall k :: 0 <= k < |ops| ==> OpOk(cfg, ops[k])
      modifies this
      ensures Valid() && answers == Answers(cfg, old(user), ops)
    {
      if ops == [] {
        return [];
      }
      var answer := Perform(ops[0]);
      var others := Run(ops[1..]);
      answers := [answer] + others;
    }
  }
}
