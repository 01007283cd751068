/** On-demand evaluation with cached values, and invalidation along dependencies that stops at
    items without a cached visibility. */
module KconfigCache {
  import opened KconfigSyntax
  import opened KconfigReads
  import opened KconfigOrder

  /* Reads follow dependencies */

  /** A read goes to the item itself, to the symbol MODULES, or to an item that has this one among
      its dependents. */
  ghost predicate Reaches(cfg: Config, i: Item, r: Slot) {
    r == STri(cfg.modules) || Owner(r) == i || i in Dependents(cfg, Owner(r))
  }

  lemma {:induction false} SymReadsReach(cfg: Config, u: User, s: nat, r: Slot)
    requires Ok(cfg, u) && s < |cfg.syms|
    requires Owner(r) in SymItems(cfg, s)
    ensures Reaches(cfg, Sym(s), r)
  {
    assert Sym(s) in Dependents(cfg, Owner(r));
  }

  lemma {:induction false} KindReadsReach(cfg: Config, u: User, s: nat, r: Slot)
    requires Ok(cfg, u) && s < |cfg.syms| && r in KindReads(cfg, u, s)
    ensures Reaches(cfg, Sym(s), r)
  {
    assert SymOk(cfg, s);
    if r != STri(cfg.modules) {
      SymReadsReach(cfg, u, s, r);
    }
  }

  lemma {:induction false} PromptReadsReach(cfg: Config, u: User, s: nat, r: Slot)
    requires Ok(cfg, u) && s < |cfg.syms|
    requires (assert SymOk(cfg, s); r in PromptReads(cfg, u, cfg.syms[s].rank, cfg.syms[s].prompts))
    ensures Reaches(cfg, Sym(s), r)
  {
    var d := cfg.syms[s];
    assert SymOk(cfg, s);
    PromptReadsItems(cfg, u, d.rank, d.prompts, r);
    SymReadsReach(cfg, u, s, r);
  }

  lemma {:induction false} SymTriReadsReach(cfg: Config, u: User, s: nat, r: Slot)
    requires Ok(cfg, u) && s < |cfg.syms| && r in SymTriReads(cfg, u, s)
    ensures Reaches(cfg, Sym(s), r)
  {
    var d := cfg.syms[s];
    assert SymOk(cfg, s);
    if r == SVis(s) {
    } else if d.choice.Some? {
      assert r == CSel(d.choice.value);
      SymReadsReach(cfg, u, s, r);
    } else if r in DefaultTriReads(cfg, u, d.rank, d.defaults, 0) {
      DefaultTriReadsItems(cfg, u, d.rank, d.defaults, 0, r);
      SymReadsReach(cfg, u, s, r);
    } else if r in ExprReads(cfg, u, d.rank, d.weakRevDep) {
      ExprReadsItems(cfg, u, d.rank, d.weakRevDep, r);
      SymReadsReach(cfg, u, s, r);
    } else if r in ExprReads(cfg, u, d.rank, d.directDep) {
      ExprReadsItems(cfg, u, d.rank, d.directDep, r);
      SymReadsReach(cfg, u, s, r);
    } else if r in ExprReads(cfg, u, d.rank, d.revDep) {
      ExprReadsItems(cfg, u, d.rank, d.revDep, r);
      SymReadsReach(cfg, u, s, r);
    } else {
      KindReadsReach(cfg, u, s, r);
    }
  }

  lemma {:induction false} SymReadsReachAll(cfg: Config, u: User, q: Slot, r: Slot)
    requires Ok(cfg, u) && SlotOk(cfg, q) && Owner(q).Sym? && r in Reads(cfg, u, q)
    ensures Reaches(cfg, Owner(q), r)
  {
    var s := Owner(q).s;
    var d := cfg.syms[s];
    assert SymOk(cfg, s);
    match q
    case SVis(_) =>
      if r in PromptReads(cfg, u, d.rank, d.prompts) {
        PromptReadsReach(cfg, u, s, r);
      } else if d.choice.Some? && r == CTri(d.choice.value) {
        SymReadsReach(cfg, u, s, r);
      } else {
        KindReadsReach(cfg, u, s, r);
      }
    case STri(_) => SymTriReadsReach(cfg, u, s, r);
    case SStr(_) =>
      if Owner(r) == Sym(s) {
      } else if r in DefaultStrReads(cfg, u, d.rank, d.defaults, 0) {
        DefaultStrReadsItems(cfg, u, d.rank, d.defaults, 0, r);
        SymReadsReach(cfg, u, s, r);
      } else {
        RangeReadsItems(cfg, u, d.rank, d.ranges, 0, r);
        SymReadsReach(cfg, u, s, r);
      }
    case SAsg(_) =>
      if r == SVis(s) {
      } else if r in ExprReads(cfg, u, d.rank, d.revDep) {
        ExprReadsItems(cfg, u, d.rank, d.revDep, r);
        SymReadsReach(cfg, u, s, r);
      } else if r in ExprReads(cfg, u, d.rank, d.weakRevDep) {
        ExprReadsItems(cfg, u, d.rank, d.weakRevDep, r);
        SymReadsReach(cfg, u, s, r);
      } else {
        KindReadsReach(cfg, u, s, r);
      }
  }

  lemma {:induction false} ReadsReach(cfg: Config, u: User, q: Slot, r: Slot)
    requires Ok(cfg, u) && SlotOk(cfg, q) && r in Reads(cfg, u, q)
    ensures Reaches(cfg, Owner(q), r)
  {
    match q
    case CVis(c) =>
      assert ChoiceOk(cfg, c);
      if r != STri(cfg.modules) {
        PromptReadsItems(cfg, u, cfg.choices[c].rank, cfg.choices[c].prompts, r);
        assert Owner(r) in ChoiceItems(cfg, c);
      }
    case CTri(c) =>
    case CSel(c) =>
      assert ChoiceOk(cfg, c);
      if r == CTri(c) {
      } else if c in u.pick && r == SVis(u.pick[c]) {
      } else {
        PickReadsItems(cfg, u, c, 0, r);
      }
    case CAsg(c) =>
    case _ => SymReadsReachAll(cfg, u, q, r);
  }

  /* The cache */

  /** The slot holds a constant that is computed without looking at anything. */
  predicate Fixed(cfg: Config, q: Slot)
    requires SlotOk(cfg, q)
  {
    match q
    case STri(s) => !BoolTri(cfg.syms[s].kind)
    case SAsg(s) => !BoolTri(cfg.syms[s].kind)
    case SStr(s) => cfg.syms[s].kind == Unknown
    case _ => false
  }

  /** The computed slots: those cached, and the modes of choices, which are computed from the cached
      visibility each time. */
  ghost function Done(cache: map<Slot, Val>, modes: set<Slot>): set<Slot> {
    cache.Keys + modes
  }

  /** The visibility of the owner is cached as well, unless the slot holds a constant. */
  ghost predicate Backed(cfg: Config, cache: map<Slot, Val>, q: Slot)
    requires SlotOk(cfg, q)
  {
    Fixed(cfg, q) || VisOf(Owner(q)) in cache
  }

  /** Every cached value is the fresh one, whatever its computation read is computed as well, and
      the visibility of an item is cached with any other value of it. */
  ghost predicate Sound(cfg: Config, u: User, cache: map<Slot, Val>, modes: set<Slot>)
    requires Ok(cfg, u)
  {
    && (forall q :: q in cache ==> !q.CTri?)
    && (forall q :: q in modes ==> q.CTri?)
    && Closed(cfg, u, Done(cache, modes))
    && (forall q {:trigger Fresh(cfg, u, q)} :: q in cache ==> cache[q] == Fresh(cfg, u, q))
    && (forall q {:trigger Backed(cfg, cache, q)} :: q in Done(cache, modes) ==> Backed(cfg, cache, q))
  }

  /** The item has lost its values: the invalidation started at it or reached it. */
  ghost predicate Lost(i: Item, cache: map<Slot, Val>, cache': map<Slot, Val>, x: Item) {
    (x.Sym? || x.Choice?) && (x == i || (VisOf(x) in cache && VisOf(x) !in cache'))
  }

  /** What an invalidation that starts at `i` leaves: a part of the cache, in which an item that has
      lost its values has none, and neither has anything that immediately depends on it, except
      constants. */
  ghost predicate Invalidated(cfg: Config, i: Item, cache: map<Slot, Val>, modes: set<Slot>,
                              cache': map<Slot, Val>, modes': set<Slot>)
  {
    && (forall q :: q in cache' ==> q in cache && cache'[q] == cache[q])
    && modes' <= modes
    && (forall x :: Lost(i, cache, cache', x) ==>
          && (forall q :: q in Done(cache', modes') ==> Owner(q) != x)
          && (forall y :: y in Dependents(cfg, x) ==> VisOf(y) !in cache'))
    && (forall q :: q in Done(cache, modes) && q !in Done(cache', modes') ==>
          Lost(i, cache, cache', Owner(q)) || (cache' == map[] && modes' == {}))
    && (Lost(i, cache, cache', Sym(cfg.modules)) ==> cache' == map[] && modes' == {})
  }

  lemma {:induction false} FixedReadsNothing(cfg: Config, u: User, q: Slot)
    requires Ok(cfg, u) && SlotOk(cfg, q) && Fixed(cfg, q)
    ensures Reads(cfg, u, q) == {}
  {
    assert SymOk(cfg, Owner(q).s);
  }

  /** What is left belongs to items that have lost nothing. */
  lemma NotLost(cfg: Config, i: Item, cache: map<Slot, Val>, modes: set<Slot>,
                cache': map<Slot, Val>, modes': set<Slot>, q: Slot)
    requires Invalidated(cfg, i, cache, modes, cache', modes') && q in Done(cache', modes')
    ensures !Lost(i, cache, cache', Owner(q))
  {
  }

  /** If a slot has lost what its computation read, its owner has lost its values too. */
  lemma LossSpreads(cfg: Config, i: Item, cache: map<Slot, Val>, modes: set<Slot>,
                    cache': map<Slot, Val>, modes': set<Slot>, q: Slot, r: Slot)
    requires Invalidated(cfg, i, cache, modes, cache', modes')
    requires SlotOk(cfg, q) && Backed(cfg, cache, q) && !Fixed(cfg, q) && Reaches(cfg, Owner(q), r)
    requires Lost(i, cache, cache', Owner(r))
    ensures Lost(i, cache, cache', Owner(q)) || (cache' == map[] && modes' == {})
  {
  }

  /** What is left after an invalidation still reads nothing that was thrown away. */
  lemma {:induction false} InvalidatedClosed(cfg: Config, u: User, i: Item, cache: map<Slot, Val>, modes: set<Slot>,
                                             cache': map<Slot, Val>, modes': set<Slot>)
    requires Ok(cfg, u) && Sound(cfg, u, cache, modes)
    requires Invalidated(cfg, i, cache, modes, cache', modes')
    ensures Closed(cfg, u, Done(cache', modes'))
  {
    forall q, r | q in Done(cache', modes') && r in Reads(cfg, u, q)
      ensures r in Done(cache', modes')
    {
      assert q in Done(cache, modes) && Backed(cfg, cache, q);
      assert Reads(cfg, u, q) <= Done(cache, modes);
      if Fixed(cfg, q) {
        FixedReadsNothing(cfg, u, q);
      } else {
        ReadsReach(cfg, u, q, r);
        NotLost(cfg, i, cache, modes, cache', modes', q);
        if Lost(i, cache, cache', Owner(r)) {
          LossSpreads(cfg, i, cache, modes, cache', modes', q, r);
        }
      }
    }
  }

  /** After an invalidation that covers every slot whose input has changed, the cache is sound for
      the new input. */
  lemma {:induction false} InvalidatedSound(cfg: Config, u: User, u': User, i: Item, cache: map<Slot, Val>,
                                            modes: set<Slot>, cache': map<Slot, Val>, modes': set<Slot>)
    requires Ok(cfg, u) && Ok(cfg, u') && Sound(cfg, u, cache, modes)
    requires Invalidated(cfg, i, cache, modes, cache', modes')
    requires forall q :: q in Done(cache', modes') && SlotOk(cfg, q) ==> SameInput(cfg, u, u', q)
    ensures Sound(cfg, u', cache', modes')
  {
    var done' := Done(cache', modes');
    InvalidatedClosed(cfg, u, i, cache, modes, cache', modes');
    forall q | q in done'
      ensures Fresh(cfg, u, q) == Fresh(cfg, u', q) && Reads(cfg, u, q) == Reads(cfg, u', q)
    {
      Stable(cfg, u, u', done', q);
    }
    forall q | q in done'
      ensures Backed(cfg, cache', q)
    {
      assert q in Done(cache, modes) && Backed(cfg, cache, q);
      NotLost(cfg, i, cache, modes, cache', modes', q);
    }
  }
}
