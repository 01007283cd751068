/** What the loop detection finds: every loop it raises is one, and without choices it raises one just
    when there is one. */
module KconfigLoopProofs {
  import opened KconfigSyntax
  import opened KconfigLoops

  /** The search goes from `n` to `n'`. */
  predicate Leads(g: Graph, n: Node, n': Node)
    requires NodeOk(g, n) && |g.choiceOf| == |g.deps|
  {
    match n
    case S(s) => n' in g.deps[s] || (n'.C? && g.choiceOf[s] == Some(n'.c))
    case C(c) => n'.S? && n'.s in g.members[c]
  }

  predicate NodesOk(g: Graph, ns: seq<Node>) { forall i :: 0 <= i < |ns| ==> NodeOk(g, ns[i]) }

  /** Each node leads to the one before it. */
  ghost predicate Chain(g: Graph, loop: seq<Node>)
    requires |g.choiceOf| == |g.deps|
  {
    NodesOk(g, loop) && forall i :: 0 < i < |loop| ==> Leads(g, loop[i], loop[i - 1])
  }

  ghost predicate IsLoop(g: Graph, loop: seq<Node>)
    requires |g.choiceOf| == |g.deps|
  {
    loop != [] && Chain(g, loop) && Leads(g, loop[0], loop[|loop| - 1])
  }

  /** `a` depends on `b`: it is one of its dependents. */
  predicate DependsOn(g: Graph, a: Node, b: Node) {
    b.S? && b.s < |g.deps| && a in g.deps[b.s]
  }

  /** Some node of the list depends on the next: it is not all choices and their symbols. */
  ghost predicate Real(g: Graph, loop: seq<Node>) {
    exists i :: 0 < i < |loop| && DependsOn(g, loop[i - 1], loop[i])
  }

  ghost predicate RealLoop(g: Graph, loop: seq<Node>)
    requires |g.choiceOf| == |g.deps|
  {
    IsLoop(g, loop) && (Real(g, loop) || DependsOn(g, loop[|loop| - 1], loop[0]))
  }

  /* Soundness */

  /** How a node is entered: as a dependent, or a symbol from its choice, or a choice from one of its
      symbols (if any), which is skipped. */
  datatype Entry = AsDependent | FromChoice | Skipping(sym: Option<nat>)

  ghost predicate Expected(g: Graph, loop: seq<Node>, e: Entry) {
    match e
    case AsDependent => true
    case FromChoice => |loop| == 1 || Real(g, loop)
    case Skipping(sym) => |loop| == 1 || Real(g, loop) || (|loop| == 2 && loop[0].S? && sym != Some(loop[0].s))
  }

  /** Visited nodes stay visited, and no node is left on the way. */
  ghost predicate Keeps(g: Graph, m: Marks, m': Marks)
    requires MarksOk(g, m) && MarksOk(g, m')
  {
    forall n {:trigger Mark(g, m', n)} :: NodeOk(g, n) ==>
      && (Mark(g, m', n) == 1 <==> Mark(g, m, n) == 1)
      && (Mark(g, m, n) == 2 ==> Mark(g, m', n) == 2)
  }

  /** What the search of node `n` reports is right. */
  ghost predicate Right(g: Graph, m: Marks, f: Found, n: Node, e: Entry)
    requires GraphOk(g) && MarksOk(g, m) && NodeOk(g, n) && FoundOk(g, m, f)
  {
    match f
    case Clean(m') => Keeps(g, m, m') && Mark(g, m', n) == 2
    case Part(loop) => Chain(g, loop) && loop[|loop| - 1] == n && Mark(g, m, loop[0]) == 1 && Expected(g, loop, e)
    case Raised(loop) => RealLoop(g, loop)
  }

  /** The same for the search of what `n` leads to, while `n` is on the way. */
  ghost predicate RightBelow(g: Graph, m: Marks, f: Found, n: Node, e: Entry)
    requires GraphOk(g) && MarksOk(g, m) && NodeOk(g, n) && FoundOk(g, m, f)
  {
    match f
    case Clean(m') => Keeps(g, m, m')
    case Part(loop) =>
      && Chain(g, loop) && loop[|loop| - 1] == n && loop[0] != n && Mark(g, m, loop[0]) == 1
      && |loop| > 1 && Expected(g, loop, e)
    case Raised(loop) => RealLoop(g, loop)
  }

  /** Recording a node on the way back, or raising the loop. */
  lemma BackRight(g: Graph, m: Marks, loop: seq<Node>, n: Node, e: Entry)
    requires GraphOk(g) && MarksOk(g, m) && NodeOk(g, n) && loop != []
    requires Chain(g, loop) && Mark(g, m, loop[0]) == 1 && Leads(g, n, loop[|loop| - 1])
    requires n == loop[0] ==> Real(g, loop) || DependsOn(g, loop[|loop| - 1], n)
    requires n != loop[0] ==> Expected(g, loop + [n], e)
    ensures RightBelow(g, m, OnTheWayBack(loop, n), n, e)
  {
  }

  lemma RealExtends(g: Graph, loop: seq<Node>, n: Node)
    requires loop != []
    ensures Real(g, loop) || DependsOn(g, loop[|loop| - 1], n) ==> Real(g, loop + [n])
  {
    var more := loop + [n];
    if i :| 0 < i < |loop| && DependsOn(g, loop[i - 1], loop[i]) {
      assert DependsOn(g, more[i - 1], more[i]);
    }
    if DependsOn(g, loop[|loop| - 1], n) {
      assert DependsOn(g, more[|loop| - 1], more[|loop|]);
    }
  }

  /** What was right later was right before, when the nodes in between are kept. */
  lemma PassOn(g: Graph, m: Marks, m1: Marks, f: Found, n: Node, e: Entry)
    requires GraphOk(g) && MarksOk(g, m) && MarksOk(g, m1) && NodeOk(g, n) && FoundOk(g, m1, f) && FoundOk(g, m, f)
    requires Keeps(g, m, m1) && RightBelow(g, m1, f, n, e)
    ensures RightBelow(g, m, f, n, e)
  {
    match f
    case Clean(m2) => KeepsThrough(g, m, m1, m2);
    case Part(loop) => assert Mark(g, m1, loop[0]) == 1;
    case Raised(_) =>
  }

  lemma KeepsThrough(g: Graph, m0: Marks, m1: Marks, m2: Marks)
    requires MarksOk(g, m0) && MarksOk(g, m1) && MarksOk(g, m2) && Keeps(g, m0, m1) && Keeps(g, m1, m2)
    ensures Keeps(g, m0, m2)
  {
    forall n {:trigger Mark(g, m2, n)} | NodeOk(g, n)
      ensures (Mark(g, m2, n) == 1 <==> Mark(g, m0, n) == 1) && (Mark(g, m0, n) == 2 ==> Mark(g, m2, n) == 2)
    {
      assert Mark(g, m1, n) == 1 <==> Mark(g, m0, n) == 1;
    }
  }

  lemma MarkSet(g: Graph, m: Marks, n: Node, v: Visit, x: Node)
    requires MarksOk(g, m) && NodeOk(g, n) && NodeOk(g, x)
    ensures MarksOk(g, Set(g, m, n, v))
    ensures Mark(g, Set(g, m, n, v), x) == if x == n then v else Mark(g, m, x)
  {
  }

  /** From what is below an unvisited node to the node: it is marked 1 on the way and 2 at the end. */
  lemma CleanRight(g: Graph, m: Marks, n: Node, m': Marks)
    requires MarksOk(g, m) && MarksOk(g, m') && NodeOk(g, n) && Mark(g, m, n) == 0
    requires MarksOk(g, Set(g, m, n, 1)) && Keeps(g, Set(g, m, n, 1), m')
    ensures MarksOk(g, Set(g, m', n, 2)) && Keeps(g, m, Set(g, m', n, 2)) && Mark(g, Set(g, m', n, 2), n) == 2
  {
    MarkSet(g, m', n, 2, n);
    forall x {:trigger Mark(g, Set(g, m', n, 2), x)} | NodeOk(g, x)
      ensures Mark(g, Set(g, m', n, 2), x) == 1 <==> Mark(g, m, x) == 1
      ensures Mark(g, m, x) == 2 ==> Mark(g, Set(g, m', n, 2), x) == 2
    {
      MarkSet(g, m, n, 1, x);
      MarkSet(g, m', n, 2, x);
      assert Mark(g, m', x) == 1 <==> Mark(g, Set(g, m, n, 1), x) == 1;
    }
  }

  /** The choice of a symbol, searched from the symbol. */
  lemma OwnChoiceRight(g: Graph, m: Marks, s: nat, c: nat)
    requires GraphOk(g) && MarksOk(g, m) && s < |g.deps| && g.choiceOf[s] == Some(c)
    requires Right(g, m, CheckChoice(g, m, c, Some(s)), C(c), Skipping(Some(s)))
    ensures var f := CheckChoice(g, m, c, Some(s));
            f.Part? ==> RightBelow(g, m, OnTheWayBack(f.loop, S(s)), S(s), AsDependent)
  {
    var f := CheckChoice(g, m, c, Some(s));
    if f.Part? {
      BackRight(g, m, f.loop, S(s), AsDependent);
    }
  }

  function EntryOf(ignoreChoice: bool): Entry { if ignoreChoice then FromChoice else AsDependent }

  lemma {:induction false} SymRight(g: Graph, m: Marks, s: nat, ignoreChoice: bool)
    requires GraphOk(g) && MarksOk(g, m) && s < |g.deps|
    ensures Right(g, m, CheckSym(g, m, s, ignoreChoice), S(s), EntryOf(ignoreChoice))
    decreases White(m), 2, 0
  {
    if m.sym[s] == 0 {
      var n, m0 := S(s), Set(g, m, S(s), 1);
      WhiteSet(g, m, n, 1);
      MarkSet(g, m, n, 1, n);
      DepsRight(g, m0, s, 0, EntryOf(ignoreChoice));
      match CheckDeps(g, m0, s, 0) {
        case Clean(m1) =>
          if g.choiceOf[s].Some? && !ignoreChoice {
            var c := g.choiceOf[s].value;
            ChoiceRight(g, m1, c, Some(s));
            OwnChoiceRight(g, m1, s, c);
            match CheckChoice(g, m1, c, Some(s)) {
              case Clean(m2) =>
                KeepsThrough(g, m0, m1, m2);
                CleanRight(g, m, n, m2);
                WhiteSet(g, m2, n, 2);
              case Part(loop) =>
                assert Mark(g, m1, loop[0]) == 1;
                MarkSet(g, m, n, 1, loop[0]);
              case Raised(_) =>
            }
          } else {
            CleanRight(g, m, n, m1);
            WhiteSet(g, m1, n, 2);
          }
        case Part(loop) => MarkSet(g, m, n, 1, loop[0]);
        case Raised(_) =>
      }
    }
  }

  lemma {:induction false} DepsRight(g: Graph, m: Marks, s: nat, i: nat, e: Entry)
    requires GraphOk(g) && MarksOk(g, m) && s < |g.deps| && i <= |g.deps[s]| && !e.Skipping?
    ensures RightBelow(g, m, CheckDeps(g, m, s, i), S(s), e)
    decreases White(m), 3, |g.deps[s]| - i
  {
    if i < |g.deps[s]| {
      var n := g.deps[s][i];
      NodeRight(g, m, n);
      match CheckNode(g, m, n) {
        case Clean(m1) =>
          DepsRight(g, m1, s, i + 1, e);
          PassOn(g, m, m1, CheckDeps(g, m1, s, i + 1), S(s), e);
        case Part(loop) =>
          RealExtends(g, loop, S(s));
          BackRight(g, m, loop, S(s), e);
        case Raised(_) =>
      }
    }
  }

  lemma {:induction false} NodeRight(g: Graph, m: Marks, n: Node)
    requires GraphOk(g) && MarksOk(g, m) && NodeOk(g, n)
    ensures Right(g, m, CheckNode(g, m, n), n, AsDependent)
    decreases White(m), 2, 1
  {
    match n
    case S(s) => SymRight(g, m, s, false);
    case C(c) => ChoiceRight(g, m, c, None);
  }

  lemma {:induction false} ChoiceRight(g: Graph, m: Marks, c: nat, skip: Option<nat>)
    requires GraphOk(g) && MarksOk(g, m) && c < |g.members|
    ensures Right(g, m, CheckChoice(g, m, c, skip), C(c), Skipping(skip))
    decreases White(m), 2, 0
  {
    if m.choice[c] == 0 {
      var n, m0 := C(c), Set(g, m, C(c), 1);
      WhiteSet(g, m, n, 1);
      MarkSet(g, m, n, 1, n);
      MembersRight(g, m0, c, skip, 0);
      match CheckMembers(g, m0, c, skip, 0) {
        case Clean(m1) =>
          CleanRight(g, m, n, m1);
          WhiteSet(g, m1, n, 2);
        case Part(loop) => MarkSet(g, m, n, 1, loop[0]);
        case Raised(_) =>
      }
    }
  }

  lemma {:induction false} MembersRight(g: Graph, m: Marks, c: nat, skip: Option<nat>, i: nat)
    requires GraphOk(g) && MarksOk(g, m) && c < |g.members| && i <= |g.members[c]|
    ensures RightBelow(g, m, CheckMembers(g, m, c, skip, i), C(c), Skipping(skip))
    decreases White(m), 3, |g.members[c]| - i
  {
    if i < |g.members[c]| {
      var s := g.members[c][i];
      if skip == Some(s) {
        MembersRight(g, m, c, skip, i + 1);
      } else {
        SymRight(g, m, s, true);
        match CheckSym(g, m, s, true) {
          case Clean(m1) =>
            MembersRight(g, m1, c, skip, i + 1);
            PassOn(g, m, m1, CheckMembers(g, m1, c, skip, i + 1), C(c), Skipping(skip));
          case Part(loop) =>
            RealExtends(g, loop, C(c));
            BackRight(g, m, loop, C(c), Skipping(skip));
          case Raised(_) =>
        }
      }
    }
  }

  /** When no node is on the way, the search of the symbols ends with a loop that is one, or with every
      symbol searched. */
  lemma {:induction false} AllRight(g: Graph, m: Marks, s: nat)
    requires GraphOk(g) && MarksOk(g, m) && s <= |g.deps|
    requires forall n {:trigger Mark(g, m, n)} :: NodeOk(g, n) ==> Mark(g, m, n) != 1
    ensures match CheckAll(g, m, s)
            case Clean(m') =>
              Keeps(g, m, m') && forall x {:trigger Mark(g, m', S(x))} :: s <= x < |g.deps| ==> Mark(g, m', S(x)) == 2
            case Part(_) => false
            case Raised(loop) => RealLoop(g, loop)
    decreases |g.deps| - s
  {
    if s < |g.deps| {
      SymRight(g, m, s, false);
      match CheckSym(g, m, s, false) {
        case Clean(m1) =>
          AllRight(g, m1, s + 1);
          match CheckAll(g, m1, s + 1) {
            case Clean(m2) => KeepsThrough(g, m, m1, m2);
            case _ =>
          }
        case Part(_) =>
        case Raised(_) =>
      }
    }
  }

  /** Every loop that is raised leads back to its start, and contains a dependency: a choice and its
      symbols alone are not reported. */
  lemma RaisedIsLoop(g: Graph)
    requires GraphOk(g)
    ensures !CheckAll(g, Unvisited(g), 0).Part?
    ensures CheckAll(g, Unvisited(g), 0).Raised? ==> RealLoop(g, CheckAll(g, Unvisited(g), 0).loop)
  {
    AllRight(g, Unvisited(g), 0);
  }

  /** A cycle of symbols each of which depends on the next. */
  ghost predicate DepLoop(g: Graph, loop: seq<Node>) {
    && loop != []
    && (forall i :: 0 < i < |loop| ==> DependsOn(g, loop[i - 1], loop[i]))
    && DependsOn(g, loop[|loop| - 1], loop[0])
  }
}
