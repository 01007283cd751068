/** With one choice: how the search gets to the choice, and what a silent search says about the
    dependencies of its symbols. */
module KconfigEntrance {
  import opened KconfigSyntax
  import opened KconfigLoops
  import opened KconfigLoopProofs
  import opened KconfigLoopTimes

  /* Paths of dependencies */

  ghost predicate IsPath(g: Graph, p: seq<Node>) {
    forall i :: 0 < i < |p| ==> DependsOn(g, p[i], p[i - 1])
  }

  /** There is a path of dependencies from `a` to `b`. */
  ghost predicate Reaches(g: Graph, a: Node, b: Node) {
    exists p :: PathFromTo(g, p, a, b)
  }

  ghost predicate PathFromTo(g: Graph, p: seq<Node>, a: Node, b: Node) {
    |p| > 1 && IsPath(g, p) && p[0] == a && p[|p| - 1] == b
  }

  lemma OneStep(g: Graph, a: Node, b: Node)
    requires DependsOn(g, b, a)
    ensures Reaches(g, a, b)
  {
    var p := [a, b];
    assert PathFromTo(g, p, a, b);
  }

  lemma StepBefore(g: Graph, a: Node, d: Node, b: Node)
    requires DependsOn(g, d, a) && Reaches(g, d, b)
    ensures Reaches(g, a, b)
  {
    var p :| PathFromTo(g, p, d, b);
    var q := [a] + p;
    forall i | 0 < i < |q|
      ensures DependsOn(g, q[i], q[i - 1])
    {
      assert i > 1 ==> DependsOn(g, p[i - 1], p[i - 2]);
    }
    assert PathFromTo(g, q, a, b);
  }

  lemma StepAfter(g: Graph, a: Node, b: Node, d: Node)
    requires Reaches(g, a, b) && DependsOn(g, d, b)
    ensures Reaches(g, a, d)
  {
    var p :| PathFromTo(g, p, a, b);
    var q := p + [d];
    forall i | 0 < i < |q|
      ensures DependsOn(g, q[i], q[i - 1])
    {
      assert i < |p| ==> DependsOn(g, p[i], p[i - 1]);
    }
    assert PathFromTo(g, q, a, d);
  }

  lemma FirstStep(g: Graph, a: Node, b: Node) returns (d: Node)
    requires Reaches(g, a, b)
    ensures DependsOn(g, d, a) && (d == b || Reaches(g, d, b))
  {
    var p :| PathFromTo(g, p, a, b);
    d := p[1];
    assert DependsOn(g, p[1], p[0]);
    if |p| > 2 {
      var q := p[1..];
      forall i | 0 < i < |q|
        ensures DependsOn(g, q[i], q[i - 1])
      {
        assert DependsOn(g, p[i + 1], p[i]);
      }
      assert PathFromTo(g, q, d, b);
    }
  }

  /** What is reached from a finished node is finished, and not later. */
  lemma {:induction false} PathFinished(g: Graph, t: Times, p: seq<Node>, i: nat)
    requires GraphOk(g) && TimesOk(g, t) && IsPath(g, p) && i < |p| && p[0] in t.at
    ensures p[i] in t.at && (i > 0 ==> t.at[p[i]] < t.at[p[0]])
  {
    if i > 0 {
      PathFinished(g, t, p, i - 1);
      assert DependsOn(g, p[i], p[i - 1]);
      assert DepsBefore(g, t, p[i - 1].s, p[i - 1]) && Before(t, p[i], p[i - 1]);
    }
  }

  lemma ReachedFinished(g: Graph, t: Times, a: Node, b: Node)
    requires GraphOk(g) && TimesOk(g, t) && Reaches(g, a, b) && a in t.at
    ensures Before(t, b, a)
  {
    var p :| PathFromTo(g, p, a, b);
    PathFinished(g, t, p, |p| - 1);
  }

  /* The entrance */

  /** The choice, or one of its symbols. */
  predicate Target(g: Graph, n: Node) {
    n == C(0) || (n.S? && n.s < |g.choiceOf| && g.choiceOf[n.s] == Some(0))
  }

  ghost predicate Leading(g: Graph, n: Node) {
    Target(g, n) || exists t :: Target(g, t) && Reaches(g, n, t)
  }

  lemma LeadingStep(g: Graph, s: nat, d: Node)
    requires s < |g.deps| && d in g.deps[s] && Leading(g, d)
    ensures Leading(g, S(s))
  {
    assert DependsOn(g, d, S(s));
    if Target(g, d) {
      OneStep(g, S(s), d);
    } else {
      var t :| Target(g, t) && Reaches(g, d, t);
      StepBefore(g, S(s), d, t);
    }
  }

  lemma LeadingFrom(g: Graph, s: nat)
    requires s < |g.deps| && Leading(g, S(s)) && !Target(g, S(s))
    ensures exists j :: 0 <= j < |g.deps[s]| && Leading(g, g.deps[s][j])
  {
    var t :| Target(g, t) && Reaches(g, S(s), t);
    var d := FirstStep(g, S(s), t);
    assert Leading(g, d);
    var j :| 0 <= j < |g.deps[s]| && g.deps[s][j] == d;
  }

  /** Dependent number `j` of a symbol is the first one that leads to the choice. */
  ghost predicate FirstLeading(g: Graph, s: nat, j: nat)
    requires s < |g.deps| && j < |g.deps[s]|
  {
    Leading(g, g.deps[s][j]) && forall k :: 0 <= k < j ==> !Leading(g, g.deps[s][k])
  }

  /** A path that begins at the first symbol that leads to the choice and always goes on to the first
      dependent that leads to it. */
  ghost predicate EntrancePath(g: Graph, p: seq<Node>)
    requires GraphOk(g)
  {
    && p != [] && p[0].S? && NodeOk(g, p[0]) && Leading(g, p[0]) && (forall r: nat :: r < p[0].s ==> !Leading(g, S(r)))
    && (forall i :: 0 <= i < |p| - 1 ==> Continues(g, p, i))
    && NodeOk(g, p[|p| - 1])
  }

  ghost predicate Continues(g: Graph, p: seq<Node>, i: nat)
    requires i < |p| - 1
  {
    && p[i].S? && p[i].s < |g.deps|
    && exists j :: 0 <= j < |g.deps[p[i].s]| && p[i + 1] == g.deps[p[i].s][j] && FirstLeading(g, p[i].s, j)
  }

  /** The path ends at the choice, or at a symbol of it with no dependent that leads to the choice. */
  ghost predicate Ends(g: Graph, p: seq<Node>)
    requires GraphOk(g) && EntrancePath(g, p)
  {
    var n := p[|p| - 1];
    Target(g, n) && (n.S? ==> forall d :: d in g.deps[n.s] ==> !Leading(g, d))
  }

  /** The search enters the choice as a dependent (`n` is the choice) or through its symbol `n`. */
  ghost predicate EnteredAt(g: Graph, n: Node)
    requires GraphOk(g)
  {
    exists p :: EntrancePath(g, p) && Ends(g, p) && p[|p| - 1] == n
  }

  /* What is kept while nothing leads to the choice */

  lemma {:induction false} SymQuiet(g: Graph, m: Marks, s: nat)
    requires GraphOk(g) && |g.members| == 1 && MarksOk(g, m) && s < |g.deps| && !Leading(g, S(s))
    requires CheckSym(g, m, s, false).Clean?
    ensures CheckSym(g, m, s, false).m.choice == m.choice
    decreases White(m), 2, 0
  {
    if m.sym[s] == 0 {
      WhiteSet(g, m, S(s), 1);
      forall d | d in g.deps[s]
        ensures !Leading(g, d)
      {
        if Leading(g, d) {
          LeadingStep(g, s, d);
        }
      }
      DepsQuiet(g, Set(g, m, S(s), 1), s, 0);
      assert g.choiceOf[s] == None;
    }
  }

  lemma {:induction false} DepsQuiet(g: Graph, m: Marks, s: nat, i: nat)
    requires GraphOk(g) && |g.members| == 1 && MarksOk(g, m) && s < |g.deps| && i <= |g.deps[s]|
    requires forall d :: d in g.deps[s] ==> !Leading(g, d)
    requires CheckDeps(g, m, s, i).Clean?
    ensures CheckDeps(g, m, s, i).m.choice == m.choice
    decreases White(m), 3, |g.deps[s]| - i
  {
    if i < |g.deps[s]| {
      NodeQuiet(g, m, g.deps[s][i]);
      DepsQuiet(g, CheckNode(g, m, g.deps[s][i]).m, s, i + 1);
    }
  }

  lemma {:induction false} NodeQuiet(g: Graph, m: Marks, n: Node)
    requires GraphOk(g) && |g.members| == 1 && MarksOk(g, m) && NodeOk(g, n) && !Leading(g, n)
    requires CheckNode(g, m, n).Clean?
    ensures CheckNode(g, m, n).m.choice == m.choice
    decreases White(m), 2, 1
  {
    match n
    case S(s) => SymQuiet(g, m, s);
    case C(_) =>
  }

  /* A path to the symbol the choice is entered through */

  /** What leads to the choice is not finished before the choice is entered. */
  lemma NotFinished(g: Graph, m: Marks, t: Times, n: Node)
    requires GraphOk(g) && |g.members| == 1 && MarksOk(g, m) && Timed(g, m, t) && m.choice[0] == 0
    requires NodeOk(g, n) && Leading(g, n)
    ensures Mark(g, m, n) != 2
  {
    assert C(0) !in t.at by {
      assert Mark(g, m, C(0)) == 0;
    }
    if n in t.at && !Target(g, n) {
      var x :| Target(g, x) && Reaches(g, n, x);
      ReachedFinished(g, t, n, x);
    }
  }

  /** Symbol `a` of the choice reaches symbol `v`, at which the entrance path ends. */
  ghost predicate Blocked(g: Graph, p: seq<Node>, a: nat)
    requires GraphOk(g)
  {
    && |g.members| == 1 && EntrancePath(g, p) && Ends(g, p) && p[|p| - 1].S?
    && a < |g.deps| && g.choiceOf[a] == Some(0) && S(a) != p[|p| - 1] && Reaches(g, S(a), p[|p| - 1])
  }

  /** Entering the choice through the last symbol of the path does not end silently. */
  lemma {:induction false} EntersNotSilent(g: Graph, m: Marks, p: seq<Node>, a: nat, t: Times)
    requires GraphOk(g) && Blocked(g, p, a) && MarksOk(g, m) && Timed(g, m, t)
    requires m.sym[p[|p| - 1].s] == 1 && forall d :: d in g.deps[p[|p| - 1].s] ==> d in t.at
    ensures !CheckChoice(g, m, 0, Some(p[|p| - 1].s)).Clean?
  {
    var v := p[|p| - 1].s;
    if CheckChoice(g, m, 0, Some(v)).Clean? {
      assert Mark(g, m, S(v)) == 1;
      var t' := OwnChoiceTimes(g, m, v, 0, t);
      var m' := CheckChoice(g, m, 0, Some(v)).m;
      assert Mark(g, m', C(0)) == 2 && ChoiceTimed(g, t', 0);
      assert Mark(g, m', S(v)) == 1 && S(v) !in t'.at;
      assert !Other(g, t', 0, v);
      assert Other(g, t', 0, a) && Before(t', S(a), C(0));
      ReachedFinished(g, t', S(a), S(v));
    }
  }

  lemma {:induction false} PathNotSilent(g: Graph, m: Marks, p: seq<Node>, a: nat, i: nat, t: Times)
    requires GraphOk(g) && Blocked(g, p, a) && i < |p| && p[i].S? && p[i].s < |g.deps|
    requires MarksOk(g, m) && Timed(g, m, t) && m.choice[0] == 0 && Leading(g, p[i])
    ensures !CheckSym(g, m, p[i].s, false).Clean?
    decreases |p| - i, 1, 0
  {
    var s := p[i].s;
    NotFinished(g, m, t, S(s));
    assert Mark(g, m, S(s)) == m.sym[s];
    if m.sym[s] == 0 {
      var m0 := Set(g, m, S(s), 1);
      WhiteSet(g, m, S(s), 1);
      Start(g, m, S(s), t);
      if i < |p| - 1 {
        assert Continues(g, p, i);
        var j :| 0 <= j < |g.deps[s]| && p[i + 1] == g.deps[s][j] && FirstLeading(g, s, j);
        DepsNotSilent(g, m0, p, a, i, 0, j, t);
      } else if CheckDeps(g, m0, s, 0).Clean? {
        DepsQuiet(g, m0, s, 0);
        var t' := DepsTimes(g, m0, s, 0, t);
        DepsRight(g, m0, s, 0, AsDependent);
        assert Mark(g, m0, S(s)) == 1 && Mark(g, CheckDeps(g, m0, s, 0).m, S(s)) == 1;
        EntersNotSilent(g, CheckDeps(g, m0, s, 0).m, p, a, t');
      }
    }
  }

  /** The dependents before the first leading one are searched silently, and that one is not. */
  lemma {:induction false} DepsNotSilent(g: Graph, m: Marks, p: seq<Node>, a: nat, i: nat, k: nat, j: nat, t: Times)
    requires GraphOk(g) && Blocked(g, p, a) && i < |p| - 1 && p[i].S? && p[i].s < |g.deps|
    requires k <= j < |g.deps[p[i].s]| && p[i + 1] == g.deps[p[i].s][j] && FirstLeading(g, p[i].s, j)
    requires MarksOk(g, m) && Timed(g, m, t) && m.choice[0] == 0
    ensures !CheckDeps(g, m, p[i].s, k).Clean?
    decreases |p| - i, 0, j - k
  {
    var s := p[i].s;
    var n := g.deps[s][k];
    if k < j {
      if CheckNode(g, m, n).Clean? {
        NodeQuiet(g, m, n);
        var t' := NodeTimes(g, m, n, t);
        DepsNotSilent(g, CheckNode(g, m, n).m, p, a, i, k + 1, j, t');
      }
    } else {
      assert i + 1 < |p| - 1 ==> Continues(g, p, i + 1);
      PathNotSilent(g, m, p, a, i + 1, t);
    }
  }

  lemma {:induction false} AllNotSilent(g: Graph, m: Marks, s: nat, p: seq<Node>, a: nat, t: Times)
    requires GraphOk(g) && Blocked(g, p, a) && s <= p[0].s && MarksOk(g, m) && Timed(g, m, t) && m.choice[0] == 0
    ensures !CheckAll(g, m, s).Clean?
    decreases p[0].s - s
  {
    if s < p[0].s {
      if CheckSym(g, m, s, false).Clean? {
        SymQuiet(g, m, s);
        var t' := SymTimes(g, m, s, false, t);
        AllNotSilent(g, CheckSym(g, m, s, false).m, s + 1, p, a, t');
      }
    } else {
      PathNotSilent(g, m, p, a, 0, t);
    }
  }

  /* What silence says */

  /** There is no cycle of dependencies, no symbol of the choice leads to the choice, and one that leads
      to another comes after it in the choice, which is not entered through that other one. */
  ghost predicate Untangled(g: Graph)
    requires GraphOk(g) && |g.members| == 1
  {
    && (forall loop :: !DepLoop(g, loop))
    && (forall a :: a in g.members[0] ==> !Reaches(g, S(a), C(0)))
    && forall a, b :: a in g.members[0] && b in g.members[0] && a != b && Reaches(g, S(a), S(b)) ==>
         First(g.members[0], b) < First(g.members[0], a) && !EnteredAt(g, S(b))
  }

  lemma SilentUntangled(g: Graph)
    requires GraphOk(g) && |g.members| == 1 && CheckAll(g, Unvisited(g), 0).Clean?
    ensures Untangled(g)
  {
    forall loop
      ensures !DepLoop(g, loop)
    {
      SilentMeansAcyclic(g, loop);
    }
    forall a | a in g.members[0]
      ensures !Reaches(g, S(a), C(0))
    {
      if Reaches(g, S(a), C(0)) {
        var t := SilentTimes(g);
        ReachesLate(g, t, a, C(0));
      }
    }
    forall a, b | a in g.members[0] && b in g.members[0] && a != b && Reaches(g, S(a), S(b))
      ensures First(g.members[0], b) < First(g.members[0], a) && !EnteredAt(g, S(b))
    {
      SilentListed(g, a, b);
    }
  }

  lemma SilentListed(g: Graph, a: nat, b: nat)
    requires GraphOk(g) && |g.members| == 1 && CheckAll(g, Unvisited(g), 0).Clean?
    requires a in g.members[0] && b in g.members[0] && a != b && Reaches(g, S(a), S(b))
    ensures First(g.members[0], b) < First(g.members[0], a) && !EnteredAt(g, S(b))
  {
    var t := SilentTimes(g);
    ReachesLate(g, t, a, S(b));
    if p :| EntrancePath(g, p) && Ends(g, p) && p[|p| - 1] == S(b) {
      assert Blocked(g, p, a);
      NothingTimed(g);
      AllNotSilent(g, Unvisited(g), 0, p, a, Times(map[], 0, map[]));
    }
  }

  /** A symbol of the choice reaches only what the search has found silently before it: a symbol that is
      listed before it. */
  lemma ReachesLate(g: Graph, t: Times, a: nat, n: Node)
    requires GraphOk(g) && |g.members| == 1 && AllFinished(g, t) && a in g.members[0] && Target(g, n)
    requires Reaches(g, S(a), n)
    ensures n.S? && (n.s != a ==> First(g.members[0], n.s) < First(g.members[0], a))
  {
    assert C(0) in t.at && ChoiceTimed(g, t, 0);
    var d := FirstStep(g, S(a), n);
    assert DepsBefore(g, t, a, S(a)) && Before(t, d, S(a));
    assert n == d || Before(t, n, d) by {
      if n != d {
        ReachedFinished(g, t, d, n);
      }
    }
    if t.entry[0] == Some(a) {
      assert Before(t, d, C(0));
      assert n.S? && n.s != a ==> Other(g, t, 0, n.s);
    } else {
      assert Other(g, t, 0, a);
      assert n.S? && t.entry[0] != Some(n.s) ==> Other(g, t, 0, n.s);
      assert n.S? && n.s != a ==> First(g.members[0], n.s) != First(g.members[0], a);
    }
  }
}
