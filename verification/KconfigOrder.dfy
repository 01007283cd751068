/** Reads go down a well-founded order, so that values that read only unchanged values are unchanged. */
module KconfigOrder {
  import opened KconfigSyntax
  import opened KconfigValues
  import opened KconfigReads

  /* The order of computation */

  /** Items first by rank; within an item, its visibility before the values that rest on it. The
      selection of a choice comes after the visibility of its symbols. */
  function Measure(cfg: Config, q: Slot): nat
    requires SlotOk(cfg, q)
  {
    match q
    case SVis(s) => 8 * cfg.syms[s].rank + 1
    case STri(s) => 8 * cfg.syms[s].rank + 3
    case SStr(s) => 8 * cfg.syms[s].rank + 4
    case SAsg(s) => 8 * cfg.syms[s].rank + 5
    case CVis(c) => 8 * cfg.choices[c].rank + 1
    case CTri(c) => 8 * cfg.choices[c].rank + 2
    case CSel(c) => 8 * cfg.choices[c].rank + 10
    case CAsg(c) => 8 * cfg.choices[c].rank + 3
  }

  /** The slot comes before all values of items of rank `b`. */
  predicate Before(cfg: Config, b: nat, r: Slot) {
    SlotOk(cfg, r) && Measure(cfg, r) < 8 * b
  }

  /* The items that reads go to */

  lemma {:induction false} ExprReadsItems(cfg: Config, u: User, b: nat, e: Expr, r: Slot)
    requires Ok(cfg, u) && ExprBelow(cfg, b, e) && r in ExprReads(cfg, u, b, e)
    ensures Owner(r) in Items(e) && Before(cfg, b, r)
  {
    match e
    case Atom(_) =>
    case And(x, y) =>
      if r in ExprReads(cfg, u, b, x) { ExprReadsItems(cfg, u, b, x, r); } else { ExprReadsItems(cfg, u, b, y, r); }
    case Or(x, y) =>
      if r in ExprReads(cfg, u, b, x) { ExprReadsItems(cfg, u, b, x, r); } else { ExprReadsItems(cfg, u, b, y, r); }
    case Not(f) => ExprReadsItems(cfg, u, b, f, r);
    case Rel(_, _, _) =>
  }

  lemma {:induction false} PromptReadsItems(cfg: Config, u: User, b: nat, ps: seq<Expr>, r: Slot)
    requires Ok(cfg, u) && forall k :: 0 <= k < |ps| ==> ExprBelow(cfg, b, ps[k])
    requires r in PromptReads(cfg, u, b, ps)
    ensures exists k :: 0 <= k < |ps| && Owner(r) in Items(ps[k])
    ensures Before(cfg, b, r)
  {
    var last := |ps| - 1;
    if r in PromptReads(cfg, u, b, ps[..last]) {
      PromptReadsItems(cfg, u, b, ps[..last], r);
      var k :| 0 <= k < last && Owner(r) in Items(ps[..last][k]);
      assert Owner(r) in Items(ps[k]);
    } else {
      ExprReadsItems(cfg, u, b, ps[last], r);
    }
  }

  lemma {:induction false} DefaultTriReadsItems(cfg: Config, u: User, b: nat, ds: seq<Default>, k: nat, r: Slot)
    requires Ok(cfg, u) && k <= |ds|
    requires forall j :: 0 <= j < |ds| ==> ExprBelow(cfg, b, ds[j].value) && ExprBelow(cfg, b, ds[j].cond)
    requires r in DefaultTriReads(cfg, u, b, ds, k)
    ensures exists j :: 0 <= j < |ds| && Owner(r) in Items(ds[j].value) + Items(ds[j].cond)
    ensures Before(cfg, b, r)
    decreases |ds| - k
  {
    if r in ExprReads(cfg, u, b, ds[k].cond) {
      ExprReadsItems(cfg, u, b, ds[k].cond, r);
      assert Owner(r) in Items(ds[k].value) + Items(ds[k].cond);
    } else if ExprValue(cfg, u, b, ds[k].cond) != 0 {
      ExprReadsItems(cfg, u, b, ds[k].value, r);
      assert Owner(r) in Items(ds[k].value) + Items(ds[k].cond);
    } else {
      DefaultTriReadsItems(cfg, u, b, ds, k + 1, r);
    }
  }

  lemma {:induction false} DefaultStrReadsItems(cfg: Config, u: User, b: nat, ds: seq<Default>, k: nat, r: Slot)
    requires Ok(cfg, u) && k <= |ds|
    requires forall j :: 0 <= j < |ds| ==>
                           && ExprBelow(cfg, b, ds[j].value) && ExprBelow(cfg, b, ds[j].cond)
                           && ds[j].value.Atom? && IsSymbol(ds[j].value.item)
    requires r in DefaultStrReads(cfg, u, b, ds, k)
    ensures exists j :: 0 <= j < |ds| && Owner(r) in Items(ds[j].value) + Items(ds[j].cond)
    ensures Before(cfg, b, r)
    decreases |ds| - k
  {
    if r in ExprReads(cfg, u, b, ds[k].cond) {
      ExprReadsItems(cfg, u, b, ds[k].cond, r);
      assert Owner(r) in Items(ds[k].value) + Items(ds[k].cond);
    } else if ExprValue(cfg, u, b, ds[k].cond) != 0 {
      assert Owner(r) in Items(ds[k].value) + Items(ds[k].cond);
    } else {
      DefaultStrReadsItems(cfg, u, b, ds, k + 1, r);
    }
  }

  lemma {:induction false} RangeReadsItems(cfg: Config, u: User, b: nat, rs: seq<Range>, k: nat, r: Slot)
    requires Ok(cfg, u) && k <= |rs|
    requires forall j :: 0 <= j < |rs| ==>
                           && Below(cfg, b, rs[j].low) && Below(cfg, b, rs[j].high) && ExprBelow(cfg, b, rs[j].cond)
    requires r in RangeReads(cfg, u, b, rs, k)
    ensures exists j :: 0 <= j < |rs| && Owner(r) in {rs[j].low, rs[j].high} + Items(rs[j].cond)
    ensures Before(cfg, b, r)
    decreases |rs| - k
  {
    if r in ExprReads(cfg, u, b, rs[k].cond) {
      ExprReadsItems(cfg, u, b, rs[k].cond, r);
      assert Owner(r) in {rs[k].low, rs[k].high} + Items(rs[k].cond);
    } else if ExprValue(cfg, u, b, rs[k].cond) != 0 {
      assert Owner(r) in {rs[k].low, rs[k].high} + Items(rs[k].cond);
    } else {
      RangeReadsItems(cfg, u, b, rs, k + 1, r);
    }
  }

  lemma {:induction false} PickReadsItems(cfg: Config, u: User, c: nat, k: nat, r: Slot)
    requires Ok(cfg, u) && c < |cfg.choices| && k <= |cfg.choices[c].picks|
    requires r in DefaultPickReads(cfg, u, c, k)
    ensures Owner(r) in ChoiceItems(cfg, c) || (Owner(r).Sym? && Owner(r).s in cfg.choices[c].syms)
    ensures SlotOk(cfg, r) && Measure(cfg, r) < Measure(cfg, CSel(c))
    decreases |cfg.choices[c].picks| - k
  {
    var d := cfg.choices[c];
    if k == |d.picks| {
      FirstVisibleReadsSyms(cfg, u, c, 0, r);
    } else {
      DefaultPickStep(cfg, u, c, k);
      if r !in PickReads(cfg, u, c, k) {
        PickReadsItems(cfg, u, c, k + 1, r);
      } else {
        OnePickReadsItems(cfg, u, c, k, r);
      }
    }
  }

  lemma OnePickReadsItems(cfg: Config, u: User, c: nat, k: nat, r: Slot)
    requires Ok(cfg, u) && c < |cfg.choices| && k < |cfg.choices[c].picks|
    requires r in PickReads(cfg, u, c, k)
    ensures Owner(r) in ChoiceItems(cfg, c) || (Owner(r).Sym? && Owner(r).s in cfg.choices[c].syms)
    ensures SlotOk(cfg, r) && Measure(cfg, r) < Measure(cfg, CSel(c))
  {
    var d := cfg.choices[c];
    PickOk(cfg, c, k);
    ChoiceSym(cfg, c, d.picks[k].sym);
    if r != SVis(d.picks[k].sym) {
      ExprReadsItems(cfg, u, d.rank, d.picks[k].cond, r);
    }
  }

  lemma {:induction false} FirstVisibleReadsSyms(cfg: Config, u: User, c: nat, k: nat, r: Slot)
    requires Ok(cfg, u) && c < |cfg.choices| && k <= |cfg.choices[c].syms|
    requires r in FirstVisibleReads(cfg, u, c, k)
    ensures Owner(r).Sym? && Owner(r).s in cfg.choices[c].syms
    ensures SlotOk(cfg, r) && Measure(cfg, r) < Measure(cfg, CSel(c))
    decreases |cfg.choices[c].syms| - k
  {
    var d := cfg.choices[c];
    ChoiceSym(cfg, c, d.syms[k]);
    if r != SVis(d.syms[k]) {
      FirstVisibleReadsSyms(cfg, u, c, k + 1, r);
    }
  }

  lemma {:induction false} SymTriReadsDecrease(cfg: Config, u: User, s: nat, r: Slot)
    requires Ok(cfg, u) && s < |cfg.syms| && r in SymTriReads(cfg, u, s)
    ensures SlotOk(cfg, r) && Measure(cfg, r) < Measure(cfg, STri(s))
  {
    var d := cfg.syms[s];
    assert SymOk(cfg, s);
    if r == SVis(s) || d.choice.Some? {
    } else if r in DefaultTriReads(cfg, u, d.rank, d.defaults, 0) {
      DefaultTriReadsItems(cfg, u, d.rank, d.defaults, 0, r);
    } else if r in ExprReads(cfg, u, d.rank, d.weakRevDep) {
      ExprReadsItems(cfg, u, d.rank, d.weakRevDep, r);
    } else if r in ExprReads(cfg, u, d.rank, d.directDep) {
      ExprReadsItems(cfg, u, d.rank, d.directDep, r);
    } else if r in ExprReads(cfg, u, d.rank, d.revDep) {
      ExprReadsItems(cfg, u, d.rank, d.revDep, r);
    }
  }

  lemma {:induction false} SymReadsDecrease(cfg: Config, u: User, q: Slot, r: Slot)
    requires Ok(cfg, u) && SlotOk(cfg, q) && Owner(q).Sym? && r in Reads(cfg, u, q)
    ensures SlotOk(cfg, r) && Measure(cfg, r) < Measure(cfg, q)
  {
    var s := Owner(q).s;
    var d := cfg.syms[s];
    assert SymOk(cfg, s);
    match q
    case SVis(_) =>
      if r in PromptReads(cfg, u, d.rank, d.prompts) { PromptReadsItems(cfg, u, d.rank, d.prompts, r); }
    case STri(_) => SymTriReadsDecrease(cfg, u, s, r);
    case SStr(_) =>
      if r == SVis(s) || r == STri(s) {
      } else if r in DefaultStrReads(cfg, u, d.rank, d.defaults, 0) {
        DefaultStrReadsItems(cfg, u, d.rank, d.defaults, 0, r);
      } else {
        RangeReadsItems(cfg, u, d.rank, d.ranges, 0, r);
      }
    case SAsg(_) =>
      if r == SVis(s) {
      } else if r in ExprReads(cfg, u, d.rank, d.revDep) {
        ExprReadsItems(cfg, u, d.rank, d.revDep, r);
      } else if r in ExprReads(cfg, u, d.rank, d.weakRevDep) {
        ExprReadsItems(cfg, u, d.rank, d.weakRevDep, r);
      }
  }

  /** Every read goes to a value that is computed earlier. */
  lemma {:induction false} ReadsDecrease(cfg: Config, u: User, q: Slot, r: Slot)
    requires Ok(cfg, u) && SlotOk(cfg, q) && r in Reads(cfg, u, q)
    ensures SlotOk(cfg, r) && Measure(cfg, r) < Measure(cfg, q)
  {
    match q
    case CVis(c) =>
      assert ChoiceOk(cfg, c);
      if r in PromptReads(cfg, u, cfg.choices[c].rank, cfg.choices[c].prompts) {
        PromptReadsItems(cfg, u, cfg.choices[c].rank, cfg.choices[c].prompts, r);
      }
    case CTri(c) => assert ChoiceOk(cfg, c);
    case CSel(c) =>
      if r == CTri(c) {
      } else if c in u.pick && r == SVis(u.pick[c]) {
        ChoiceSym(cfg, c, u.pick[c]);
      } else {
        PickReadsItems(cfg, u, c, 0, r);
      }
    case CAsg(c) => assert ChoiceOk(cfg, c);
    case _ => SymReadsDecrease(cfg, u, q, r);
  }

  /* Values over a closed set of slots */

  /** The slots of `done` read no slot outside it. */
  ghost predicate Closed(cfg: Config, u: User, done: set<Slot>)
    requires Ok(cfg, u)
  {
    && (forall q :: q in done ==> SlotOk(cfg, q))
    && (forall q {:trigger Reads(cfg, u, q)} :: q in done ==> Reads(cfg, u, q) <= done)
  }

  /** If the user's input changes at no slot of a closed set, every value in the set stays the same,
      and so does what its computation reads. */
  lemma {:induction false} Stable(cfg: Config, u: User, u': User, done: set<Slot>, q: Slot)
    requires Ok(cfg, u) && Ok(cfg, u') && Closed(cfg, u, done) && q in done
    requires forall r {:trigger SameInput(cfg, u, u', r)} :: r in done ==> SameInput(cfg, u, u', r)
    ensures Fresh(cfg, u, q) == Fresh(cfg, u', q)
    ensures Reads(cfg, u, q) == Reads(cfg, u', q)
    decreases Measure(cfg, q)
  {
    forall r | r in Reads(cfg, u, q)
      ensures SlotOk(cfg, r) && Fresh(cfg, u, r) == Fresh(cfg, u', r)
    {
      ReadsDecrease(cfg, u, q, r);
      Stable(cfg, u, u', done, r);
    }
    assert SameInput(cfg, u, u', q);
    Congruent(cfg, u, u', q);
  }

  /** A change of the user's input leaves a value as it is if no slot that is computed before it, nor
      the slot itself, takes anything from the change. */
  lemma {:induction false} Unaffected(cfg: Config, u: User, u': User, q: Slot)
    requires Ok(cfg, u) && Ok(cfg, u') && SlotOk(cfg, q)
    requires forall r {:trigger SameInput(cfg, u, u', r)} ::
               SlotOk(cfg, r) && Measure(cfg, r) <= Measure(cfg, q) ==> SameInput(cfg, u, u', r)
    ensures Fresh(cfg, u, q) == Fresh(cfg, u', q)
    decreases Measure(cfg, q)
  {
    forall r | r in Reads(cfg, u, q)
      ensures SlotOk(cfg, r) && Fresh(cfg, u, r) == Fresh(cfg, u', r)
    {
      ReadsDecrease(cfg, u, q, r);
      Unaffected(cfg, u, u', r);
    }
    assert SameInput(cfg, u, u', q);
    Congruent(cfg, u, u', q);
  }
}
