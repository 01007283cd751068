/** With one choice: just when the search is silent. */
module KconfigOneChoice {
  import opened KconfigSyntax
  import opened KconfigLoops
  import opened KconfigLoopProofs
  import opened KconfigLoopTimes
  import opened KconfigLoopGuard
  import opened KconfigEntrance

  /** The entrance path, which is empty if nothing leads to the choice, and a height that rises along
      every step of the search. */
  datatype Plan = Plan(p: seq<Node>, h: map<Node, nat>)

  /** The symbol the choice is entered through. */
  function Through(plan: Plan): Option<nat> {
    if plan.p != [] && plan.p[|plan.p| - 1].S? then Some(plan.p[|plan.p| - 1].s) else None
  }

  ghost predicate PathOk(g: Graph, p: seq<Node>)
    requires GraphOk(g)
  {
    if p == [] then forall s: nat :: s < |g.deps| ==> !Leading(g, S(s)) else EntrancePath(g, p) && Ends(g, p)
  }

  /** A symbol of the choice that is searched from it. */
  predicate FromIt(g: Graph, plan: Plan, b: nat)
    requires |g.members| == 1
  {
    b in g.members[0] && Through(plan) != Some(b)
  }

  ghost predicate Rises(g: Graph, plan: Plan)
    requires GraphOk(g) && |g.members| == 1
  {
    && (forall n :: NodeOk(g, n) ==> n in plan.h)
    && (forall s: nat, d :: s < |g.deps| && d in g.deps[s] ==> plan.h[S(s)] < plan.h[d])
    && (Through(plan).Some? ==> NodeOk(g, S(Through(plan).value)) && plan.h[S(Through(plan).value)] < plan.h[C(0)])
    && (forall b :: FromIt(g, plan, b) ==> plan.h[C(0)] < plan.h[S(b)])
  }

  ghost predicate Listed(g: Graph)
    requires |g.members| == 1
  {
    forall a, b :: a in g.members[0] && b in g.members[0] && a != b && Reaches(g, S(a), S(b)) ==>
      First(g.members[0], b) < First(g.members[0], a)
  }

  ghost predicate PlanOk(g: Graph, plan: Plan) {
    GraphOk(g) && |g.members| == 1 && PathOk(g, plan.p) && Rises(g, plan) && Listed(g)
  }

  /* States of the search */

  /** What leads to the choice is not finished before the choice is entered; all its symbols are searched
      when it is finished; and it is entered through the right one. */
  ghost predicate StateOk(g: Graph, plan: Plan, m: Marks)
    requires PlanOk(g, plan) && MarksOk(g, m)
  {
    && (m.choice[0] == 0 ==> forall n {:trigger Leading(g, n)} :: NodeOk(g, n) && Leading(g, n) ==> Mark(g, m, n) != 2)
    && (m.choice[0] == 2 ==> forall b: nat :: FromIt(g, plan, b) ==> m.sym[b] == 2)
    && (m.choice[0] != 0 && Through(plan).Some? ==> m.sym[Through(plan).value] != 0)
  }

  /** The nodes on the way are below height `k`. */
  ghost predicate Under(g: Graph, plan: Plan, m: Marks, k: nat)
    requires PlanOk(g, plan) && MarksOk(g, m)
  {
    forall y {:trigger Mark(g, m, y)} :: NodeOk(g, y) && Mark(g, m, y) == 1 ==> plan.h[y] < k
  }

  /** The choice is being searched and has got to position `i`. */
  ghost predicate At(g: Graph, plan: Plan, m: Marks, i: nat)
    requires PlanOk(g, plan) && MarksOk(g, m)
  {
    && i < |g.members[0]| && FromIt(g, plan, g.members[0][i])
    && forall b: nat :: FromIt(g, plan, b) && First(g.members[0], b) < i ==> m.sym[b] == 2
  }

  /** Node `n` is on the way to the choice, or below the symbol of the choice that is being searched. */
  ghost predicate Comes(g: Graph, plan: Plan, m: Marks, n: Node)
    requires PlanOk(g, plan) && MarksOk(g, m)
  {
    && (m.choice[0] == 0 && Leading(g, n) ==> n in plan.p)
    && (m.choice[0] == 1 ==> exists i: nat :: At(g, plan, m, i) && Reaches(g, S(g.members[0][i]), n))
  }

  ghost predicate Below(g: Graph, plan: Plan, m: Marks, s: nat)
    requires PlanOk(g, plan) && MarksOk(g, m)
  {
    && (m.choice[0] == 0 && Leading(g, S(s)) ==> S(s) in plan.p)
    && (m.choice[0] == 1 ==>
          exists i: nat :: At(g, plan, m, i) && (g.members[0][i] == s || Reaches(g, S(g.members[0][i]), S(s))))
  }

  /** What has been done stays done. */
  lemma Onwards(g: Graph, plan: Plan, m: Marks, m1: Marks, s: nat, k: nat)
    requires PlanOk(g, plan) && MarksOk(g, m) && MarksOk(g, m1) && Keeps(g, m, m1) && s < |g.deps|
    requires Below(g, plan, m, s) && Under(g, plan, m, k)
    ensures Below(g, plan, m1, s) && Under(g, plan, m1, k)
  {
    assert Mark(g, m1, C(0)) == 1 <==> Mark(g, m, C(0)) == 1;
    assert Mark(g, m, C(0)) == 2 ==> Mark(g, m1, C(0)) == 2;
    if m1.choice[0] == 1 {
      var i: nat :| At(g, plan, m, i) && (g.members[0][i] == s || Reaches(g, S(g.members[0][i]), S(s)));
      forall b: nat | FromIt(g, plan, b) && First(g.members[0], b) < i
        ensures m1.sym[b] == 2
      {
        assert Mark(g, m, S(b)) == 2 && Mark(g, m1, S(b)) == 2;
      }
      assert At(g, plan, m1, i);
    }
    forall y {:trigger Mark(g, m1, y)} | NodeOk(g, y) && Mark(g, m1, y) == 1
      ensures plan.h[y] < k
    {
      assert Mark(g, m, y) == 1;
    }
  }

  lemma {:induction false} PathRises(g: Graph, plan: Plan, q: seq<Node>, i: nat)
    requires PlanOk(g, plan) && IsPath(g, q) && i < |q| && NodeOk(g, q[0])
    ensures NodeOk(g, q[i]) && plan.h[q[i]] >= plan.h[q[0]] + i
  {
    if i > 0 {
      PathRises(g, plan, q, i - 1);
      assert DependsOn(g, q[i], q[i - 1]);
    }
  }

  lemma ReachesHigher(g: Graph, plan: Plan, a: Node, b: Node)
    requires PlanOk(g, plan) && NodeOk(g, a) && Reaches(g, a, b)
    ensures NodeOk(g, b) && plan.h[a] < plan.h[b]
  {
    var q :| PathFromTo(g, q, a, b);
    PathRises(g, plan, q, |q| - 1);
  }

  /** The entrance path rises to its end. */
  lemma {:induction false} EntranceRises(g: Graph, plan: Plan, i: nat)
    requires PlanOk(g, plan) && i < |plan.p|
    ensures NodeOk(g, plan.p[i]) && plan.h[plan.p[i]] <= plan.h[plan.p[|plan.p| - 1]]
    ensures i < |plan.p| - 1 ==> plan.p[i].S?
    decreases |plan.p| - i
  {
    if i < |plan.p| - 1 {
      assert Continues(g, plan.p, i);
      EntranceRises(g, plan, i + 1);
    }
  }

  /** No other symbol of the choice is on the entrance path. */
  lemma NotOnPath(g: Graph, plan: Plan, s: nat)
    requires PlanOk(g, plan) && FromIt(g, plan, s)
    ensures S(s) !in plan.p
  {
    if i :| 0 <= i < |plan.p| && plan.p[i] == S(s) {
      EntranceRises(g, plan, i);
    }
  }

  /** What is below a symbol of the choice that is being searched, and is in the choice, has been searched. */
  lemma SearchedBefore(g: Graph, plan: Plan, m: Marks, i: nat, s: nat)
    requires PlanOk(g, plan) && MarksOk(g, m) && At(g, plan, m, i) && FromIt(g, plan, s)
    requires Reaches(g, S(g.members[0][i]), S(s))
    ensures m.sym[s] == 2
  {
    var a := g.members[0][i];
    ReachesHigher(g, plan, S(a), S(s));
    assert First(g.members[0], s) < First(g.members[0], a);
  }

  /** A symbol of the choice that the search comes to from elsewhere, unvisited, is the one the choice is
      entered through. */
  lemma EntersThrough(g: Graph, plan: Plan, m: Marks, s: nat)
    requires PlanOk(g, plan) && MarksOk(g, m) && StateOk(g, plan, m) && Comes(g, plan, m, S(s))
    requires s < |g.deps| && g.choiceOf[s].Some? && m.sym[s] == 0
    ensures Through(plan) == Some(s) && m.choice[0] == 0
  {
    assert Target(g, S(s)) && s in g.members[0];
    if FromIt(g, plan, s) {
      NotOnPath(g, plan, s);
      if m.choice[0] == 1 {
        var i: nat :| At(g, plan, m, i) && Reaches(g, S(g.members[0][i]), S(s));
        SearchedBefore(g, plan, m, i, s);
      }
    }
  }

  /** The search comes to the choice as a dependent only before entering it, if it does so for entering
      it, or when it is done. */
  lemma ComesToChoice(g: Graph, plan: Plan, m: Marks)
    requires PlanOk(g, plan) && MarksOk(g, m) && Comes(g, plan, m, C(0))
    ensures m.choice[0] != 1
    ensures m.choice[0] == 0 ==> Through(plan) == None
  {
    assert Target(g, C(0));
    if m.choice[0] == 0 {
      var i :| 0 <= i < |plan.p| && plan.p[i] == C(0);
      EntranceRises(g, plan, i);
    } else if m.choice[0] == 1 {
      var i: nat :| At(g, plan, m, i) && Reaches(g, S(g.members[0][i]), C(0));
      ReachesHigher(g, plan, S(g.members[0][i]), C(0));
    }
  }

  /** The next dependent is on the way as well. */
  lemma NextComes(g: Graph, plan: Plan, m: Marks, s: nat, i: nat)
    requires PlanOk(g, plan) && MarksOk(g, m) && Below(g, plan, m, s)
    requires s < |g.deps| && i < |g.deps[s]|
    requires m.choice[0] == 0 ==> forall j :: 0 <= j < i ==> !Leading(g, g.deps[s][j])
    ensures Comes(g, plan, m, g.deps[s][i])
  {
    var d := g.deps[s][i];
    assert DependsOn(g, d, S(s));
    if m.choice[0] == 0 && Leading(g, d) {
      LeadingStep(g, s, d);
      var k :| 0 <= k < |plan.p| && plan.p[k] == S(s);
      assert k < |plan.p| - 1 && Continues(g, plan.p, k);
      var j :| 0 <= j < |g.deps[s]| && plan.p[k + 1] == g.deps[s][j] && FirstLeading(g, s, j);
      assert j == i;
    }
    if m.choice[0] == 1 {
      var k: nat :| At(g, plan, m, k) && (g.members[0][k] == s || Reaches(g, S(g.members[0][k]), S(s)));
      if g.members[0][k] == s {
        OneStep(g, S(s), d);
      } else {
        StepAfter(g, S(g.members[0][k]), S(s), d);
      }
    }
  }

  lemma NextUnder(g: Graph, plan: Plan, m: Marks, s: nat, d: Node)
    requires PlanOk(g, plan) && MarksOk(g, m) && s < |g.deps| && d in g.deps[s] && Under(g, plan, m, plan.h[S(s)] + 1)
    ensures NodeOk(g, d) && Under(g, plan, m, plan.h[d])
  {
    assert plan.h[S(s)] < plan.h[d];
    forall y {:trigger Mark(g, m, y)} | NodeOk(g, y) && Mark(g, m, y) == 1
      ensures plan.h[y] < plan.h[d]
    {
    }
  }

  /* The search ends silently */

  /** The search of node `n` is silent, and gets to the choice if `n` leads to it. */
  ghost predicate Silent(g: Graph, plan: Plan, m: Marks, f: Found, n: Node)
    requires PlanOk(g, plan) && MarksOk(g, m)
  {
    f.Clean? && MarksOk(g, f.m) && Keeps(g, m, f.m) && StateOk(g, plan, f.m) && (Leading(g, n) ==> f.m.choice[0] != 0)
  }

  /** Marking a node that is entered or, unless it leads to a choice that has not been entered, finished. */
  lemma MarkState(g: Graph, plan: Plan, m: Marks, s: nat, v: Visit)
    requires PlanOk(g, plan) && MarksOk(g, m) && StateOk(g, plan, m) && s < |g.deps| && v != 0
    requires v == 2 && Leading(g, S(s)) ==> m.choice[0] != 0
    requires v == 1 ==> m.sym[s] == 0
    ensures MarksOk(g, Set(g, m, S(s), v))
    ensures StateOk(g, plan, Set(g, m, S(s), v))
  {
    var m' := Set(g, m, S(s), v);
    forall n {:trigger Leading(g, n)} | NodeOk(g, n) && Leading(g, n) && m'.choice[0] == 0
      ensures Mark(g, m', n) != 2
    {
      MarkSet(g, m, S(s), v, n);
    }
  }

  lemma {:induction false} SymSilent(g: Graph, plan: Plan, m: Marks, s: nat)
    requires PlanOk(g, plan) && MarksOk(g, m) && s < |g.deps| && StateOk(g, plan, m)
    requires Comes(g, plan, m, S(s)) && Under(g, plan, m, plan.h[S(s)])
    ensures Silent(g, plan, m, CheckSym(g, m, s, false), S(s))
    decreases White(m), 2, 0
  {
    assert Mark(g, m, S(s)) == m.sym[s];
    if m.sym[s] == 0 {
      var m0 := Set(g, m, S(s), 1);
      WhiteSet(g, m, S(s), 1);
      SymRight(g, m, s, false);
      EnterSym(g, plan, m, s);
      DepsSilent(g, plan, m0, s, 0);
      DepsRight(g, m0, s, 0, AsDependent);
      var m1 := CheckDeps(g, m0, s, 0).m;
      if g.choiceOf[s].Some? {
        OwnChoiceSilent(g, plan, m0, m1, s);
        MarkState(g, plan, CheckChoice(g, m1, 0, Some(s)).m, s, 2);
      } else {
        LastDep(g, plan, m1, s);
        MarkState(g, plan, m1, s, 2);
      }
    }
  }

  /** Entering a symbol. */
  lemma EnterSym(g: Graph, plan: Plan, m: Marks, s: nat)
    requires PlanOk(g, plan) && MarksOk(g, m) && s < |g.deps| && StateOk(g, plan, m) && m.sym[s] == 0
    requires Comes(g, plan, m, S(s)) && Under(g, plan, m, plan.h[S(s)])
    ensures g.choiceOf[s].Some? ==> Through(plan) == Some(s) && m.choice[0] == 0
    ensures var m0 := Set(g, m, S(s), 1);
            MarksOk(g, m0) && StateOk(g, plan, m0) && Below(g, plan, m0, s) && Under(g, plan, m0, plan.h[S(s)] + 1)
  {
    var m0 := Set(g, m, S(s), 1);
    if g.choiceOf[s].Some? {
      EntersThrough(g, plan, m, s);
    }
    MarkState(g, plan, m, s, 1);
    forall y {:trigger Mark(g, m0, y)} | NodeOk(g, y) && Mark(g, m0, y) == 1
      ensures plan.h[y] < plan.h[S(s)] + 1
    {
      MarkSet(g, m, S(s), 1, y);
    }
    if m.choice[0] == 1 {
      var i: nat :| At(g, plan, m, i) && Reaches(g, S(g.members[0][i]), S(s));
      assert At(g, plan, m0, i);
    }
  }

  /** When the dependents of a symbol that is not in the choice are done, so is the symbol. */
  lemma LastDep(g: Graph, plan: Plan, m: Marks, s: nat)
    requires PlanOk(g, plan) && MarksOk(g, m) && s < |g.deps| && g.choiceOf[s] == None
    requires m.choice[0] == 0 ==> forall j :: 0 <= j < |g.deps[s]| ==> !Leading(g, g.deps[s][j])
    ensures Leading(g, S(s)) ==> m.choice[0] != 0
  {
    if Leading(g, S(s)) {
      LeadingFrom(g, s);
    }
  }

  lemma {:induction false} OwnChoiceSilent(g: Graph, plan: Plan, m0: Marks, m: Marks, s: nat)
    requires PlanOk(g, plan) && MarksOk(g, m0) && s < |g.deps| && m0.sym[s] == 1 && m0.choice[0] == 0
    requires g.choiceOf[s].Some? && Through(plan) == Some(s) && Under(g, plan, m0, plan.h[S(s)] + 1)
    requires CheckDeps(g, m0, s, 0) == Clean(m) && MarksOk(g, m) && Keeps(g, m0, m) && StateOk(g, plan, m)
    ensures var f := CheckChoice(g, m, 0, Some(s));
            f.Clean? && MarksOk(g, f.m) && Keeps(g, m, f.m) && StateOk(g, plan, f.m) && f.m.choice[0] == 2
    decreases White(m), 2, 1
  {
    assert forall d :: d in g.deps[s] ==> !Leading(g, d);
    DepsQuiet(g, m0, s, 0);
    assert Mark(g, m0, S(s)) == 1 && Mark(g, m, S(s)) == 1;
    forall y {:trigger Mark(g, m, y)} | NodeOk(g, y) && Mark(g, m, y) == 1
      ensures plan.h[y] < plan.h[C(0)]
    {
      assert Mark(g, m0, y) == 1;
    }
    ChoiceSilent(g, plan, m, Some(s));
  }

  lemma {:induction false} DepsSilent(g: Graph, plan: Plan, m: Marks, s: nat, i: nat)
    requires PlanOk(g, plan) && MarksOk(g, m) && s < |g.deps| && i <= |g.deps[s]| && StateOk(g, plan, m)
    requires Below(g, plan, m, s) && Under(g, plan, m, plan.h[S(s)] + 1)
    requires m.choice[0] == 0 ==> forall j :: 0 <= j < i ==> !Leading(g, g.deps[s][j])
    ensures CheckDeps(g, m, s, i).Clean? && StateOk(g, plan, CheckDeps(g, m, s, i).m)
    ensures CheckDeps(g, m, s, i).m.choice[0] == 0 ==> forall j :: 0 <= j < |g.deps[s]| ==> !Leading(g, g.deps[s][j])
    decreases White(m), 3, |g.deps[s]| - i
  {
    if i < |g.deps[s]| {
      DepSilent(g, plan, m, s, i);
      DepsSilent(g, plan, CheckNode(g, m, g.deps[s][i]).m, s, i + 1);
    }
  }

  lemma {:induction false} DepSilent(g: Graph, plan: Plan, m: Marks, s: nat, i: nat)
    requires PlanOk(g, plan) && MarksOk(g, m) && s < |g.deps| && i < |g.deps[s]| && StateOk(g, plan, m)
    requires Below(g, plan, m, s) && Under(g, plan, m, plan.h[S(s)] + 1)
    requires m.choice[0] == 0 ==> forall j :: 0 <= j < i ==> !Leading(g, g.deps[s][j])
    ensures var f := CheckNode(g, m, g.deps[s][i]);
            && f.Clean? && MarksOk(g, f.m) && StateOk(g, plan, f.m)
            && Below(g, plan, f.m, s) && Under(g, plan, f.m, plan.h[S(s)] + 1)
            && (f.m.choice[0] == 0 ==> forall j :: 0 <= j < i + 1 ==> !Leading(g, g.deps[s][j]))
    decreases White(m), 2, 2
  {
    NextComes(g, plan, m, s, i);
    NextUnder(g, plan, m, s, g.deps[s][i]);
    NodeSilent(g, plan, m, g.deps[s][i]);
    NextState(g, plan, m, CheckNode(g, m, g.deps[s][i]), s, i);
  }

  lemma NextState(g: Graph, plan: Plan, m: Marks, f: Found, s: nat, i: nat)
    requires PlanOk(g, plan) && MarksOk(g, m) && s < |g.deps| && i < |g.deps[s]|
    requires Below(g, plan, m, s) && Under(g, plan, m, plan.h[S(s)] + 1)
    requires m.choice[0] == 0 ==> forall j :: 0 <= j < i ==> !Leading(g, g.deps[s][j])
    requires Silent(g, plan, m, f, g.deps[s][i])
    ensures Below(g, plan, f.m, s) && Under(g, plan, f.m, plan.h[S(s)] + 1)
    ensures f.m.choice[0] == 0 ==> forall j :: 0 <= j < i + 1 ==> !Leading(g, g.deps[s][j])
  {
    Onwards(g, plan, m, f.m, s, plan.h[S(s)] + 1);
    assert Mark(g, m, C(0)) == 0 || Mark(g, f.m, C(0)) != 0;
  }

  lemma {:induction false} NodeSilent(g: Graph, plan: Plan, m: Marks, n: Node)
    requires PlanOk(g, plan) && MarksOk(g, m) && NodeOk(g, n) && StateOk(g, plan, m)
    requires Comes(g, plan, m, n) && Under(g, plan, m, plan.h[n])
    ensures Silent(g, plan, m, CheckNode(g, m, n), n)
    decreases White(m), 2, 1
  {
    match n
    case S(s) => SymSilent(g, plan, m, s);
    case C(c) =>
      ComesToChoice(g, plan, m);
      if m.choice[0] == 0 {
        ChoiceSilent(g, plan, m, None);
      }
  }

  lemma {:induction false} ChoiceSilent(g: Graph, plan: Plan, m: Marks, skip: Option<nat>)
    requires PlanOk(g, plan) && MarksOk(g, m) && StateOk(g, plan, m) && m.choice[0] == 0 && skip == Through(plan)
    requires Under(g, plan, m, plan.h[C(0)]) && (skip.Some? ==> m.sym[skip.value] == 1)
    ensures var f := CheckChoice(g, m, 0, skip);
            f.Clean? && MarksOk(g, f.m) && Keeps(g, m, f.m) && StateOk(g, plan, f.m) && f.m.choice[0] == 2
    decreases White(m), 2, 0
  {
    var m0 := Set(g, m, C(0), 1);
    WhiteSet(g, m, C(0), 1);
    ChoiceRight(g, m, 0, skip);
    forall y {:trigger Mark(g, m0, y)} | NodeOk(g, y) && Mark(g, m0, y) == 1
      ensures plan.h[y] < plan.h[C(0)] + 1
    {
      MarkSet(g, m, C(0), 1, y);
    }
    MembersSilent(g, plan, m0, skip, 0);
    var m1 := CheckMembers(g, m0, 0, skip, 0).m;
    MembersRight(g, m0, 0, skip, 0);
    assert skip.Some? ==> Mark(g, m0, S(skip.value)) == 1 && Mark(g, m1, S(skip.value)) == 1;
  }

  lemma {:induction false} MembersSilent(g: Graph, plan: Plan, m: Marks, skip: Option<nat>, i: nat)
    requires PlanOk(g, plan) && MarksOk(g, m) && m.choice[0] == 1 && skip == Through(plan) && i <= |g.members[0]|
    requires Under(g, plan, m, plan.h[C(0)] + 1) && (skip.Some? ==> m.sym[skip.value] == 1)
    requires forall b: nat :: FromIt(g, plan, b) && First(g.members[0], b) < i ==> m.sym[b] == 2
    ensures var f := CheckMembers(g, m, 0, skip, i);
            f.Clean? && MarksOk(g, f.m) && forall b: nat :: FromIt(g, plan, b) ==> f.m.sym[b] == 2
    decreases White(m), 3, |g.members[0]| - i
  {
    if i < |g.members[0]| {
      var s := g.members[0][i];
      if skip == Some(s) {
        forall b: nat | FromIt(g, plan, b) && First(g.members[0], b) < i + 1
          ensures m.sym[b] == 2
        {
          assert g.members[0][First(g.members[0], b)] == b;
        }
        MembersSilent(g, plan, m, skip, i + 1);
      } else {
        MemberSilent(g, plan, m, i);
        var m1 := CheckSym(g, m, s, true).m;
        SymRight(g, m, s, true);
        MemberDone(g, plan, m, m1, i);
        MembersSilent(g, plan, m1, skip, i + 1);
      }
    }
  }

  lemma MemberDone(g: Graph, plan: Plan, m: Marks, m1: Marks, i: nat)
    requires PlanOk(g, plan) && MarksOk(g, m) && MarksOk(g, m1) && m.choice[0] == 1 && i < |g.members[0]|
    requires Under(g, plan, m, plan.h[C(0)] + 1) && (Through(plan).Some? ==> m.sym[Through(plan).value] == 1)
    requires forall b: nat :: FromIt(g, plan, b) && First(g.members[0], b) < i ==> m.sym[b] == 2
    requires Keeps(g, m, m1) && Mark(g, m1, S(g.members[0][i])) == 2
    ensures m1.choice[0] == 1 && Under(g, plan, m1, plan.h[C(0)] + 1)
    ensures Through(plan).Some? ==> m1.sym[Through(plan).value] == 1
    ensures forall b: nat :: FromIt(g, plan, b) && First(g.members[0], b) < i + 1 ==> m1.sym[b] == 2
  {
    assert Mark(g, m, C(0)) == 1 && Mark(g, m1, C(0)) == 1;
    if Through(plan).Some? {
      var v := S(Through(plan).value);
      assert Mark(g, m, v) == 1 && Mark(g, m1, v) == 1;
    }
    forall y {:trigger Mark(g, m1, y)} | NodeOk(g, y) && Mark(g, m1, y) == 1
      ensures plan.h[y] < plan.h[C(0)] + 1
    {
      assert Mark(g, m, y) == 1;
    }
    forall b: nat | FromIt(g, plan, b) && First(g.members[0], b) < i + 1
      ensures m1.sym[b] == 2
    {
      assert g.members[0][First(g.members[0], b)] == b;
      assert First(g.members[0], b) < i ==> Mark(g, m, S(b)) == 2 && Mark(g, m1, S(b)) == 2;
    }
  }

  /** A symbol that is searched from the choice. */
  lemma {:induction false} MemberSilent(g: Graph, plan: Plan, m: Marks, i: nat)
    requires PlanOk(g, plan) && MarksOk(g, m) && m.choice[0] == 1 && At(g, plan, m, i)
    requires Under(g, plan, m, plan.h[C(0)] + 1) && (Through(plan).Some? ==> m.sym[Through(plan).value] == 1)
    ensures CheckSym(g, m, g.members[0][i], true).Clean?
    decreases White(m), 2, 0
  {
    var s := g.members[0][i];
    assert Mark(g, m, S(s)) == m.sym[s];
    if m.sym[s] == 0 {
      var m0 := Set(g, m, S(s), 1);
      WhiteSet(g, m, S(s), 1);
      MarkState(g, plan, m, s, 1);
      forall y {:trigger Mark(g, m0, y)} | NodeOk(g, y) && Mark(g, m0, y) == 1
        ensures plan.h[y] < plan.h[S(s)] + 1
      {
        MarkSet(g, m, S(s), 1, y);
      }
      assert At(g, plan, m0, i);
      DepsSilent(g, plan, m0, s, 0);
    }
  }

  lemma {:induction false} AllSilent(g: Graph, plan: Plan, m: Marks, s: nat)
    requires PlanOk(g, plan) && MarksOk(g, m) && StateOk(g, plan, m) && s <= |g.deps|
    requires forall y {:trigger Mark(g, m, y)} :: NodeOk(g, y) ==> Mark(g, m, y) != 1
    requires m.choice[0] == 0 ==> forall r: nat :: r < s ==> !Leading(g, S(r))
    ensures CheckAll(g, m, s).Clean?
    decreases |g.deps| - s
  {
    if s < |g.deps| {
      assert Mark(g, m, C(0)) == m.choice[0];
      assert m.choice[0] == 0 && Leading(g, S(s)) ==> plan.p != [] && plan.p[0] == S(s);
      SymSilent(g, plan, m, s);
      var m1 := CheckSym(g, m, s, false).m;
      assert Mark(g, m, C(0)) == 2 ==> Mark(g, m1, C(0)) == 2;
      AllSilent(g, plan, m1, s + 1);
    }
  }

  /* The plan of an untangled graph */

  lemma OnlyDependencies(g: Graph, g0: Graph, loop: seq<Node>)
    requires g0 == Graph(g.deps, seq(|g.deps|, _ => None), [[]]) && IsLoop(g0, loop)
    ensures DepLoop(g, loop)
  {
    forall i | 0 < i < |loop|
      ensures DependsOn(g, loop[i - 1], loop[i])
    {
      assert Leads(g0, loop[i], loop[i - 1]);
    }
  }

  /** The graph without its choice has no loop, so that its search gives finishing times. */
  lemma DependencyTimes(g: Graph) returns (t: Times)
    requires GraphOk(g) && |g.members| == 1 && forall loop :: !DepLoop(g, loop)
    ensures forall s: nat :: s < |g.deps| ==> S(s) in t.at && DepsBefore(g, t, s, S(s))
    ensures forall n :: n in t.at ==> t.at[n] < t.now
  {
    var g0 := Graph(g.deps, seq(|g.deps|, _ => None), [[]]);
    RaisedIsLoop(g0);
    var f := CheckAll(g0, Unvisited(g0), 0);
    if f.Raised? {
      OnlyDependencies(g, g0, f.loop);
    }
    t := SilentTimes(g0);
    forall s: nat | s < |g.deps|
      ensures DepsBefore(g, t, s, S(s))
    {
      assert DepsBefore(g0, t, s, S(s));
    }
  }

  /** A beginning of the entrance path. */
  ghost predicate Begins(g: Graph, p: seq<Node>)
    requires GraphOk(g)
  {
    EntrancePath(g, p) && Leading(g, p[|p| - 1])
  }

  /** The first of the dependents from position `j` on that leads to the choice. */
  lemma FindLeading(g: Graph, s: nat, j: nat) returns (k: nat)
    requires s < |g.deps| && j <= |g.deps[s]| && forall i :: 0 <= i < j ==> !Leading(g, g.deps[s][i])
    ensures k <= |g.deps[s]| && (k < |g.deps[s]| ==> FirstLeading(g, s, k))
    ensures k == |g.deps[s]| ==> forall d :: d in g.deps[s] ==> !Leading(g, d)
    decreases |g.deps[s]| - j
  {
    k := j;
    if j < |g.deps[s]| && !Leading(g, g.deps[s][j]) {
      k := FindLeading(g, s, j + 1);
    }
  }

  function TimeOf(t: Times, n: Node): nat { if n in t.at then t.at[n] else 0 }

  lemma {:induction false} FindEnd(g: Graph, t: Times, p: seq<Node>) returns (q: seq<Node>)
    requires GraphOk(g) && |g.members| == 1 && Begins(g, p)
    requires forall s: nat :: s < |g.deps| ==> S(s) in t.at && DepsBefore(g, t, s, S(s))
    ensures EntrancePath(g, q) && Ends(g, q)
    decreases if p[|p| - 1].S? then TimeOf(t, p[|p| - 1]) + 1 else 0
  {
    var n := p[|p| - 1];
    if n.C? {
      return p;
    }
    var k := FindLeading(g, n.s, 0);
    if k == |g.deps[n.s]| {
      if !Target(g, n) {
        LeadingFrom(g, n.s);
      }
      return p;
    }
    var p' := p + [g.deps[n.s][k]];
    forall i | 0 <= i < |p'| - 1
      ensures Continues(g, p', i)
    {
      assert i < |p| - 1 ==> Continues(g, p, i);
    }
    assert DepsBefore(g, t, n.s, n) && Before(t, g.deps[n.s][k], n);
    q := FindEnd(g, t, p');
  }

  lemma {:induction false} FindPath(g: Graph, t: Times, r: nat) returns (p: seq<Node>)
    requires GraphOk(g) && |g.members| == 1 && r <= |g.deps| && forall s: nat :: s < r ==> !Leading(g, S(s))
    requires forall s: nat :: s < |g.deps| ==> S(s) in t.at && DepsBefore(g, t, s, S(s))
    ensures PathOk(g, p)
    decreases |g.deps| - r
  {
    if r == |g.deps| {
      p := [];
    } else if Leading(g, S(r)) {
      p := FindEnd(g, t, [S(r)]);
    } else {
      p := FindPath(g, t, r + 1);
    }
  }

  /** A symbol that is searched from the choice, or reached from one. */
  ghost predicate Late(g: Graph, p: seq<Node>, n: Node)
    requires |g.members| == 1
  {
    exists a :: FromIt(g, Plan(p, map[]), a) && (n == S(a) || Reaches(g, S(a), n))
  }

  ghost function Height(g: Graph, t: Times, p: seq<Node>, n: Node): nat
    requires |g.members| == 1 && forall x :: x in t.at ==> t.at[x] < t.now
  {
    if n == C(0) then t.now + 1
    else if n !in t.at then 0
    else if Late(g, p, n) then t.now + 2 + (t.now - t.at[n])
    else t.now - t.at[n]
  }

  lemma HeightRises(g: Graph, t: Times, p: seq<Node>, s: nat, d: Node)
    requires GraphOk(g) && |g.members| == 1 && Untangled(g) && s < |g.deps| && d in g.deps[s] &&
        DepsBefore(g, t, s, S(s))
    requires forall x :: x in t.at ==> t.at[x] < t.now
    ensures Height(g, t, p, S(s)) < Height(g, t, p, d)
  {
    assert Before(t, d, S(s)) && DependsOn(g, d, S(s));
    if a :| FromIt(g, Plan(p, map[]), a) && (S(s) == S(a) || Reaches(g, S(a), S(s))) {
      if s == a {
        OneStep(g, S(a), d);
      } else {
        StepAfter(g, S(a), S(s), d);
      }
      assert Late(g, p, d);
    }
  }

  /** The symbol the choice is entered through comes before the choice, and its other symbols after it. */
  lemma ChoiceRises(g: Graph, t: Times, p: seq<Node>, b: nat)
    requires GraphOk(g) && |g.members| == 1 && Untangled(g) && PathOk(g, p) && b in g.members[0] && S(b) in t.at
    requires forall x :: x in t.at ==> t.at[x] < t.now
    ensures if Through(Plan(p, map[])) == Some(b) then Height(g, t, p, S(b)) < Height(g, t, p, C(0))
            else Height(g, t, p, C(0)) < Height(g, t, p, S(b))
  {
    if Through(Plan(p, map[])) == Some(b) {
      assert EnteredAt(g, S(b));
      assert !Late(g, p, S(b));
    } else {
      assert FromIt(g, Plan(p, map[]), b);
      assert Late(g, p, S(b));
    }
  }

  ghost function Heights(g: Graph, t: Times, p: seq<Node>): (h: map<Node, nat>)
    requires |g.members| == 1 && forall x :: x in t.at ==> t.at[x] < t.now
    ensures forall n :: NodeOk(g, n) ==> n in h && h[n] == Height(g, t, p, n)
  {
    var nodes := (set s | 0 <= s < |g.deps| :: S(s)) + {C(0)};
    map n | n in nodes :: Height(g, t, p, n)
  }

  lemma PathTarget(g: Graph, p: seq<Node>)
    requires GraphOk(g) && |g.members| == 1 && PathOk(g, p) && Through(Plan(p, map[])).Some?
    ensures Through(Plan(p, map[])).value in g.members[0]
  {
  }

  lemma FindPlan(g: Graph) returns (plan: Plan)
    requires GraphOk(g) && |g.members| == 1 && Untangled(g)
    ensures PlanOk(g, plan)
  {
    var t := DependencyTimes(g);
    var p := FindPath(g, t, 0);
    plan := Plan(p, Heights(g, t, p));
    forall s: nat, d | s < |g.deps| && d in g.deps[s]
      ensures plan.h[S(s)] < plan.h[d]
    {
      assert NodeOk(g, d);
      HeightRises(g, t, p, s, d);
    }
    forall b | b in g.members[0]
      ensures if Through(plan) == Some(b) then plan.h[S(b)] < plan.h[C(0)] else plan.h[C(0)] < plan.h[S(b)]
    {
      ChoiceRises(g, t, p, b);
    }
    if Through(plan).Some? {
      PathTarget(g, p);
    }
  }

  /** With one choice, what goes around it goes along dependencies; so the guard is about these. */
  lemma AroundExact(g: Graph, a: nat, b: nat)
    requires GraphOk(g) && |g.members| == 1 && a < |g.deps|
    ensures LeadsAround(g, 0, a, b) <==> Reaches(g, S(a), S(b))
  {
    if chain :| |chain| > 1 && Chain(g, chain) && chain[|chain| - 1] == S(a) && chain[0] == S(b) && C(0) !in chain {
      var p := Reversed(chain);
      forall i | 0 < i < |p|
        ensures DependsOn(g, p[i], p[i - 1])
      {
        var k := |p| - i;
        assert Leads(g, chain[k], chain[k - 1]) && NodeOk(g, chain[k]) && NodeOk(g, chain[k - 1]);
        assert chain[k] in chain && chain[k - 1] in chain;
      }
      assert PathFromTo(g, p, S(a), S(b));
    }
    if p: seq<Node> :| PathFromTo(g, p, S(a), S(b)) {
      var chain := Reversed(p);
      forall i | 0 < i < |chain|
        ensures Leads(g, chain[i], chain[i - 1])
      {
        assert DependsOn(g, p[|p| - i], p[|p| - i - 1]);
      }
      forall i | 0 <= i < |p|
        ensures p[i].S? && NodeOk(g, p[i])
      {
        assert i < |p| - 1 ==> DependsOn(g, p[i + 1], p[i]);
        assert i > 0 ==> DependsOn(g, p[i], p[i - 1]);
      }
      assert Chain(g, chain) && C(0) !in chain;
    }
  }

  function Reversed(l: seq<Node>): (r: seq<Node>)
    ensures |r| == |l| && forall i :: 0 <= i < |l| ==> r[i] == l[|l| - 1 - i]
  {
    seq(|l|, i requires 0 <= i < |l| => l[|l| - 1 - i])
  }

  /** With one choice the search is silent just when there is no cycle of dependencies, no symbol of the
      choice leads to the choice, and none leads to one listed after it or to the one through which the
      choice is entered. */
  lemma OneChoiceExact(g: Graph)
    requires GraphOk(g) && |g.members| == 1
    ensures CheckAll(g, Unvisited(g), 0).Clean? <==> Untangled(g)
  {
    if Untangled(g) {
      var plan := FindPlan(g);
      NothingTimed(g);
      var none := Unvisited(g);
      assert StateOk(g, plan, none);
      AllSilent(g, plan, none, 0);
    }
    if CheckAll(g, Unvisited(g), 0).Clean? {
      SilentUntangled(g);
    }
  }

  /* An example */

  /** Symbols 0, 1 and 3 belong to choice 0; symbol 1 depends on symbol 2, which depends on symbol 3. */
  function ThroughChoice(members: seq<nat>): Graph {
    Graph([[], [], [S(1)], [S(2)]], [Some(0), Some(0), None, Some(0)], [members])
  }

  /** The symbols of a choice depend on one another, so this is a loop. */
  lemma LoopThroughChoice(members: seq<nat>)
    requires 3 in members && 1 in members
    ensures RealLoop(ThroughChoice(members), [S(3), C(0), S(1), S(2)])
  {
    var g, loop := ThroughChoice(members), [S(3), C(0), S(1), S(2)];
    assert Leads(g, S(2), S(1)) && Leads(g, S(1), C(0)) && Leads(g, C(0), S(3)) && Leads(g, S(3), S(2));
    assert DependsOn(g, loop[2], loop[3]);
  }

  lemma ThroughChoiceOk(members: seq<nat>)
    requires forall s :: s in members <==> s in {0, 1, 3}
    ensures GraphOk(ThroughChoice(members))
  {
    var g := ThroughChoice(members);
    forall i: nat | i < |members|
      ensures members[i] < 4 && g.choiceOf[members[i]] == Some(0)
    {
      assert members[i] in members;
    }
  }

  lemma {:induction false} PathFalls(g: Graph, members: seq<nat>, p: seq<Node>, i: nat)
    requires g == ThroughChoice(members) && IsPath(g, p) && i < |p| && p[0].S?
    ensures p[i].S? && p[i].s + i <= p[0].s
  {
    if i > 0 {
      PathFalls(g, members, p, i - 1);
      assert DependsOn(g, p[i], p[i - 1]);
    }
  }

  lemma OnlyFirst(g: Graph, members: seq<nat>, n: Node)
    requires g == ThroughChoice(members) && GraphOk(g) && EnteredAt(g, n)
    ensures n == S(0)
  {
    var p :| EntrancePath(g, p) && Ends(g, p) && p[|p| - 1] == n;
    assert Leading(g, S(0)) && p[0] == S(0);
    if |p| > 1 {
      HasNext(g, p);
    }
  }

  lemma HasNext(g: Graph, p: seq<Node>)
    requires GraphOk(g) && EntrancePath(g, p) && |p| > 1
    ensures g.deps[p[0].s] != []
  {
    assert Continues(g, p, 0);
  }

  lemma OnlyDown(g: Graph, members: seq<nat>, a: nat, b: Node)
    requires g == ThroughChoice(members) && Reaches(g, S(a), b)
    ensures b.S? && b.s < a && a != 1 && b != S(0)
  {
    var p :| PathFromTo(g, p, S(a), b);
    PathFalls(g, members, p, |p| - 1);
    assert DependsOn(g, p[1], p[0]) && DependsOn(g, p[|p| - 1], p[|p| - 2]);
  }

  lemma NoCycle(g: Graph, members: seq<nat>, loop: seq<Node>)
    requires g == ThroughChoice(members) && GraphOk(g)
    ensures !DepLoop(g, loop)
  {
    if DepLoop(g, loop) {
      var p := Reversed(loop) + [loop[|loop| - 1]];
      forall i | 0 < i < |p|
        ensures DependsOn(g, p[i], p[i - 1])
      {
        assert i < |loop| ==> DependsOn(g, loop[|loop| - i - 1], loop[|loop| - i]);
      }
      PathFalls(g, members, p, |p| - 1);
    }
  }

  lemma ExampleReaches(g: Graph, members: seq<nat>, a: nat, b: nat)
    requires g == ThroughChoice(members) && a in {0, 1, 3} && b in {0, 1, 3} && a != b
    ensures Reaches(g, S(a), S(b)) <==> a == 3 && b == 1
  {
    OneStep(g, S(2), S(1));
    StepBefore(g, S(3), S(2), S(1));
    if Reaches(g, S(a), S(b)) {
      OnlyDown(g, members, a, S(b));
    }
  }

  lemma ExampleUntangled(g: Graph, members: seq<nat>)
    requires g == ThroughChoice(members) && GraphOk(g) && forall s :: s in members <==> s in {0, 1, 3}
    ensures Untangled(g) <==> First(members, 1) < First(members, 3)
  {
    forall loop
      ensures !DepLoop(g, loop)
    {
      NoCycle(g, members, loop);
    }
    forall a | a in members
      ensures !Reaches(g, S(a), C(0))
    {
      if Reaches(g, S(a), C(0)) {
        OnlyDown(g, members, a, C(0));
      }
    }
    forall a, b | a in members && b in members && a != b
      ensures Reaches(g, S(a), S(b)) <==> a == 3 && b == 1
    {
      ExampleReaches(g, members, a, b);
    }
    if EnteredAt(g, S(1)) {
      OnlyFirst(g, members, S(1));
    }
    ExampleListed(g, members);
  }

  lemma ExampleListed(g: Graph, members: seq<nat>)
    requires g == ThroughChoice(members) && GraphOk(g) && forall s :: s in members <==> s in {0, 1, 3}
    requires forall loop :: !DepLoop(g, loop)
    requires forall a :: a in members ==> !Reaches(g, S(a), C(0))
    requires forall a, b :: a in members && b in members && a != b ==> (Reaches(g, S(a), S(b)) <==> a == 3 && b == 1)
    requires !EnteredAt(g, S(1))
    ensures Untangled(g) <==> First(members, 1) < First(members, 3)
  {
    assert 1 in members && 3 in members && Reaches(g, S(3), S(1));
  }

  /** Whether the loop is found depends on the order of the symbols in the choice: it is missed when the
      search comes to symbol 1 before symbol 3, because it does not go from there to the choice again. */
  lemma ChoiceLoopMissed(members: seq<nat>)
    requires forall s :: s in members <==> s in {0, 1, 3}
    ensures var g := ThroughChoice(members);
            && GraphOk(g) && RealLoop(g, [S(3), C(0), S(1), S(2)])
            && (CheckAll(g, Unvisited(g), 0).Clean? <==> First(members, 1) < First(members, 3))
  {
    var g := ThroughChoice(members);
    ThroughChoiceOk(members);
    LoopThroughChoice(members);
    OneChoiceExact(g);
    ExampleUntangled(g, members);
  }
}
