/** Detection of dependency loops: a depth-first search that marks symbols and choices and collects a
    loop on its way back. */
module KconfigLoops {
  import opened KconfigSyntax

  datatype Node = S(s: nat) | C(c: nat)

  /** For each symbol its dependents and the choice it belongs to; for each choice its symbols. */
  datatype Graph = Graph(deps: seq<seq<Node>>, choiceOf: seq<Option<nat>>, members: seq<seq<nat>>)

  predicate NodeOk(g: Graph, n: Node) {
    match n
    case S(s) => s < |g.deps|
    case C(c) => c < |g.members|
  }

  ghost predicate GraphOk(g: Graph) {
    && |g.choiceOf| == |g.deps|
    && (forall s: nat, i: nat :: s < |g.deps| && i < |g.deps[s]| ==> NodeOk(g, g.deps[s][i]))
    && (forall s: nat :: s < |g.deps| && g.choiceOf[s].Some? ==> g.choiceOf[s].value < |g.members|)
    && (forall c: nat, i: nat :: c < |g.members| && i < |g.members[c]| ==>
          g.members[c][i] < |g.deps| && g.choiceOf[g.members[c][i]] == Some(c))
    && (forall s: nat :: s < |g.deps| && g.choiceOf[s].Some? ==> s in g.members[g.choiceOf[s].value])
  }

  ghost predicate ChoiceFree(g: Graph) {
    && (forall s: nat, i: nat :: s < |g.deps| && i < |g.deps[s]| ==> g.deps[s][i].S?)
    && (forall s: nat :: s < |g.choiceOf| ==> g.choiceOf[s] == None)
  }

  /** The marks: 0 is unvisited, 1 is visited and possibly on a loop, 2 is visited and not on a loop. */
  type Visit = v: int | 0 <= v <= 2

  datatype Marks = Marks(sym: seq<Visit>, choice: seq<Visit>)

  predicate MarksOk(g: Graph, m: Marks) { |m.sym| == |g.deps| && |m.choice| == |g.members| }

  function Mark(g: Graph, m: Marks, n: Node): Visit
    requires MarksOk(g, m) && NodeOk(g, n)
  {
    match n
    case S(s) => m.sym[s]
    case C(c) => m.choice[c]
  }

  function Set(g: Graph, m: Marks, n: Node, v: Visit): Marks
    requires MarksOk(g, m) && NodeOk(g, n)
  {
    match n
    case S(s) => m.(sym := m.sym[s := v])
    case C(c) => m.(choice := m.choice[c := v])
  }

  /** The number of unvisited nodes. */
  function White(m: Marks): nat { Zeros(m.sym) + Zeros(m.choice) }

  function Zeros(s: seq<Visit>): nat {
    if s == [] then 0 else (if s[0] == 0 then 1 else 0) + Zeros(s[1..])
  }

  lemma {:induction false} ZerosSet(s: seq<Visit>, i: nat, v: Visit)
    requires i < |s| && v != 0
    ensures Zeros(s[i := v]) == Zeros(s) - if s[i] == 0 then 1 else 0
  {
    if i == 0 {
      assert s[0 := v][1..] == s[1..];
    } else {
      assert s[i := v][1..] == s[1..][i - 1 := v];
      ZerosSet(s[1..], i - 1, v);
    }
  }

  lemma WhiteSet(g: Graph, m: Marks, n: Node, v: Visit)
    requires MarksOk(g, m) && NodeOk(g, n) && v != 0
    ensures White(Set(g, m, n, v)) == White(m) - if Mark(g, m, n) == 0 then 1 else 0
  {
    match n
    case S(s) => ZerosSet(m.sym, s, v);
    case C(c) => ZerosSet(m.choice, c, v);
  }

  /* The search */

  /** No loop, a part of a loop that is still being collected, or a whole loop. */
  datatype Found = Clean(m: Marks) | Part(loop: seq<Node>) | Raised(loop: seq<Node>)

  /** On the way back from a loop that was found below `cur`. */
  function OnTheWayBack(loop: seq<Node>, cur: Node): Found
    requires loop != []
  {
    if cur != loop[0] then Part(loop + [cur]) else Raised(loop)
  }

  ghost predicate FoundOk(g: Graph, m: Marks, f: Found) {
    match f
    case Clean(m') => MarksOk(g, m') && White(m') <= White(m)
    case Part(loop) => loop != []
    case Raised(loop) => loop != []
  }

  function CheckSym(g: Graph, m: Marks, s: nat, ignoreChoice: bool): (f: Found)
    requires GraphOk(g) && MarksOk(g, m) && s < |g.deps|
    ensures FoundOk(g, m, f)
    decreases White(m), 2, 0
  {
    if m.sym[s] == 0 then
      WhiteSet(g, m, S(s), 1);
      match CheckDeps(g, Set(g, m, S(s), 1), s, 0)
      case Clean(m1) =>
        (match if g.choiceOf[s].Some? && !ignoreChoice then CheckChoice(g, m1, g.choiceOf[s].value, Some(s))
               else Clean(m1)
         case Clean(m2) => WhiteSet(g, m2, S(s), 2); Clean(Set(g, m2, S(s), 2))
         case Part(loop) => OnTheWayBack(loop, S(s))
         case Raised(loop) => Raised(loop))
      case Part(loop) => Part(loop)
      case Raised(loop) => Raised(loop)
    else if m.sym[s] == 2 then Clean(m)
    else Part([S(s)])
  }

  /** The dependents of a symbol from position `i` on. */
  function CheckDeps(g: Graph, m: Marks, s: nat, i: nat): (f: Found)
    requires GraphOk(g) && MarksOk(g, m) && s < |g.deps| && i <= |g.deps[s]|
    ensures FoundOk(g, m, f)
    decreases White(m), 3, |g.deps[s]| - i
  {
    if i == |g.deps[s]| then Clean(m)
    else
      match CheckNode(g, m, g.deps[s][i])
      case Clean(m1) => CheckDeps(g, m1, s, i + 1)
      case Part(loop) => OnTheWayBack(loop, S(s))
      case Raised(loop) => Raised(loop)
  }

  function CheckNode(g: Graph, m: Marks, n: Node): (f: Found)
    requires GraphOk(g) && MarksOk(g, m) && NodeOk(g, n)
    ensures FoundOk(g, m, f)
    decreases White(m), 2, 1
  {
    match n
    case S(s) => CheckSym(g, m, s, false)
    case C(c) => CheckChoice(g, m, c, None)
  }

  function CheckChoice(g: Graph, m: Marks, c: nat, skip: Option<nat>): (f: Found)
    requires GraphOk(g) && MarksOk(g, m) && c < |g.members|
    ensures FoundOk(g, m, f)
    decreases White(m), 2, 0
  {
    if m.choice[c] == 0 then
      WhiteSet(g, m, C(c), 1);
      match CheckMembers(g, Set(g, m, C(c), 1), c, skip, 0)
      case Clean(m1) => WhiteSet(g, m1, C(c), 2); Clean(Set(g, m1, C(c), 2))
      case Part(loop) => Part(loop)
      case Raised(loop) => Raised(loop)
    else if m.choice[c] == 2 then Clean(m)
    else Part([C(c)])
  }

  /** The symbols of a choice from position `i` on, except for `skip`. */
  function CheckMembers(g: Graph, m: Marks, c: nat, skip: Option<nat>, i: nat): (f: Found)
    requires GraphOk(g) && MarksOk(g, m) && c < |g.members| && i <= |g.members[c]|
    ensures FoundOk(g, m, f)
    decreases White(m), 3, |g.members[c]| - i
  {
    if i == |g.members[c]| then Clean(m)
    else if skip == Some(g.members[c][i]) then CheckMembers(g, m, c, skip, i + 1)
    else
      match CheckSym(g, m, g.members[c][i], true)
      case Clean(m1) => CheckMembers(g, m1, c, skip, i + 1)
      case Part(loop) => OnTheWayBack(loop, C(c))
      case Raised(loop) => Raised(loop)
  }

  /** All symbols from symbol `s` on. */
  function CheckAll(g: Graph, m: Marks, s: nat): (f: Found)
    requires GraphOk(g) && MarksOk(g, m) && s <= |g.deps|
    ensures FoundOk(g, m, f)
    decreases |g.deps| - s
  {
    if s == |g.deps| then Clean(m)
    else
      match CheckSym(g, m, s, false)
      case Clean(m1) => CheckAll(g, m1, s + 1)
      case Part(loop) => Part(loop)
      case Raised(loop) => Raised(loop)
  }

  function Unvisited(g: Graph): (m: Marks)
    ensures MarksOk(g, m)
  {
    Marks(seq(|g.deps|, _ => 0), seq(|g.members|, _ => 0))
  }
}
