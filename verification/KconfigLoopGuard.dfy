/** When silence of the search means that there is no loop, with any number of choices. */
module KconfigLoopGuard {
  import opened KconfigSyntax
  import opened KconfigLoops
  import opened KconfigLoopProofs
  import opened KconfigLoopTimes

  ghost predicate NoRealLoop(g: Graph)
    requires GraphOk(g)
  {
    forall loop :: !RealLoop(g, loop)
  }

  /** Symbol `a` leads to symbol `b` without passing through choice `c`. */
  ghost predicate LeadsAround(g: Graph, c: nat, a: nat, b: nat)
    requires GraphOk(g)
  {
    exists chain :: |chain| > 1 && Chain(g, chain) && chain[|chain| - 1] == S(a) && chain[0] == S(b) && C(c) !in chain
  }

  /** No symbol of a choice leads, around the choice, to one that is listed before it. */
  ghost predicate Guard(g: Graph)
    requires GraphOk(g)
  {
    forall c: nat, a: nat, b: nat ::
      c < |g.members| && a in g.members[c] && b in g.members[c] && First(g.members[c], b) < First(g.members[c], a)
      ==> !LeadsAround(g, c, a, b)
  }

  /** A symbol that leads to another one of its choice is on a loop. */
  lemma GuardNeeded(g: Graph)
    requires GraphOk(g) && NoRealLoop(g)
    ensures Guard(g)
  {
    forall c: nat, a: nat, b: nat | c < |g.members| && a in g.members[c] && b in g.members[c] && a != b
      ensures !LeadsAround(g, c, a, b)
    {
      if chain :| |chain| > 1 && Chain(g, chain) && chain[|chain| - 1] == S(a) && chain[0] == S(b) && C(c) !in chain {
        var loop, k := chain + [C(c)], |chain| - 1;
        assert Leads(g, chain[k], chain[k - 1]) && chain[k - 1] != C(c);
        assert DependsOn(g, loop[k - 1], loop[k]);
        assert RealLoop(g, loop);
      }
    }
  }

  /** A chain that leads back to its start by a dependency. */
  ghost predicate Round(g: Graph, l: seq<Node>)
    requires GraphOk(g)
  {
    |l| > 1 && Chain(g, l) && l[0] == l[|l| - 1] && DependsOn(g, l[0], l[1])
  }

  /** Going round from another node of it. */
  lemma Rotate(g: Graph, l: seq<Node>, k: nat) returns (r: seq<Node>)
    requires GraphOk(g) && Round(g, l) && k < |l| - 1 && DependsOn(g, l[k], l[k + 1])
    ensures Round(g, r) && r[0] == l[k]
  {
    r := l[k..] + l[1..k + 1];
    forall i | 0 < i < |r|
      ensures Leads(g, r[i], r[i - 1])
    {
      if i < |l| - k {
        assert r[i] == l[k + i] && r[i - 1] == l[k + i - 1];
      } else {
        var j := i - (|l| - k) + 1;
        assert r[i] == l[j];
        assert r[i - 1] == l[j - 1];
      }
    }
  }

  /** Going round a loop from position `k`. */
  lemma RoundFrom(g: Graph, loop: seq<Node>, k: nat)
    requires GraphOk(g) && IsLoop(g, loop) && k < |loop|
    requires DependsOn(g, loop[k], if k == |loop| - 1 then loop[0] else loop[k + 1])
    ensures Round(g, loop[k..] + loop[..k + 1])
  {
    var r, n := loop[k..] + loop[..k + 1], |loop| - k;
    forall i | 0 < i < |r|
      ensures Leads(g, r[i], r[i - 1])
    {
      if i < n {
        assert r[i] == loop[k + i] && r[i - 1] == loop[k + i - 1];
      } else if i == n {
        assert r[i] == loop[0] && r[i - 1] == loop[|loop| - 1];
      } else {
        assert r[i] == loop[i - n] && r[i - 1] == loop[i - n - 1];
      }
    }
  }

  lemma RoundFromLoop(g: Graph, loop: seq<Node>) returns (r: seq<Node>)
    requires GraphOk(g) && RealLoop(g, loop)
    ensures Round(g, r)
  {
    var k := |loop| - 1;
    if Real(g, loop) {
      var i :| 0 < i < |loop| && DependsOn(g, loop[i - 1], loop[i]);
      k := i - 1;
    }
    RoundFrom(g, loop, k);
    r := loop[k..] + loop[..k + 1];
  }

  predicate InClass(g: Graph, c: nat, d: Node)
    requires c < |g.members|
  {
    d == C(c) || (d.S? && d.s in g.members[c])
  }

  /** Going from a node of a choice to the dependents of one of its symbols gets to an earlier time, except
      from a symbol to one that is listed after it. */
  lemma Descends(g: Graph, t: Times, c: nat, d: Node, s: nat, d': Node)
    requires GraphOk(g) && AllFinished(g, t) && c < |g.members| && C(c) in t.at
    requires InClass(g, c, d) && d in t.at && s in g.members[c] && d' in g.deps[s] && d' in t.at
    requires t.at[d'] >= t.at[d]
    ensures d.S? && First(g.members[c], d.s) < First(g.members[c], s)
  {
    assert ChoiceTimed(g, t, c) && DepsBefore(g, t, s, S(s));
    assert Before(t, d', S(s));
    if t.entry[c] == Some(s) {
      assert Before(t, d', C(c));
      assert d.S? && d.s != s ==> Other(g, t, c, d.s);
    } else {
      assert Other(g, t, c, s);
      assert d.S? && t.entry[c] != Some(d.s) ==> Other(g, t, c, d.s);
      assert d.S? && d.s != s ==> First(g.members[c], d.s) != First(g.members[c], s);
    }
  }

  /** The last time a round passes through choice `c`, or 0 if it does not. */
  function LastPass(l: seq<Node>, c: nat, i: nat): (j: nat)
    requires 1 <= i <= |l|
    ensures j == 0 || (i <= j < |l| && l[j] == C(c))
    ensures C(c) !in l[i..if j == 0 then |l| else j]
    decreases |l| - i
  {
    if i == |l| then 0 else if l[i] == C(c) then i else LastPass(l, c, i + 1)
  }

  /** When all is finished, going round gets to an earlier time. */
  lemma EarlierOnRound(g: Graph, t: Times, l: seq<Node>) returns (k: nat)
    requires GraphOk(g) && AllFinished(g, t) && Guard(g) && Round(g, l)
    ensures k < |l| - 1 && DependsOn(g, l[k], l[k + 1])
    ensures Before(t, l[k], l[0])
  {
    var d, last := l[0], |l| - 1;
    assert DepsBefore(g, t, l[1].s, l[1]) && Before(t, d, l[1]);
    assert Leads(g, l[last], l[last - 1]);
    if d.C? {
      var j := LastPass(l, d.c, 1);
      assert l[last] in l[1..];
      k := LastVisit(g, t, l, d.c, j);
    } else if g.choiceOf[d.s].Some? && LastPass(l, g.choiceOf[d.s].value, 1) > 0 {
      k := LastVisit(g, t, l, g.choiceOf[d.s].value, LastPass(l, g.choiceOf[d.s].value, 1));
    } else {
      k := last - 1;
      assert g.choiceOf[d.s].Some? && k > 0 ==> l[k] in l[1..];
      assert DependsOn(g, l[k], d);
      assert DepsBefore(g, t, d.s, d) && Before(t, l[k], d);
    }
  }

  /** From the last pass through the choice of the first node, going round gets to one of its symbols and
      to a dependent of that. */
  lemma LastVisit(g: Graph, t: Times, l: seq<Node>, c: nat, j: nat) returns (k: nat)
    requires GraphOk(g) && AllFinished(g, t) && Guard(g) && Round(g, l) && l[0] in t.at
    requires c < |g.members| && InClass(g, c, l[0]) && C(c) in t.at
    requires 1 < j < |l| && l[j] == C(c) && C(c) !in l[1..j]
    ensures k < |l| - 1 && DependsOn(g, l[k], l[k + 1]) && Before(t, l[k], l[0])
  {
    assert Leads(g, l[j], l[j - 1]);
    var s := l[j - 1].s;
    assert Leads(g, l[j - 1], l[j - 2]);
    k := j - 2;
    assert k > 0 ==> l[k] in l[1..j];
    assert DependsOn(g, l[k], l[k + 1]);
    assert DepsBefore(g, t, s, S(s)) && Before(t, l[k], S(s));
    if t.at[l[k]] >= t.at[l[0]] {
      Descends(g, t, c, l[0], s, l[k]);
      GoesAround(g, l, c, j);
    }
  }

  lemma GoesAround(g: Graph, l: seq<Node>, c: nat, j: nat)
    requires GraphOk(g) && Chain(g, l) && 1 < j < |l| && C(c) !in l[1..j] && l[0].S? && l[j - 1].S?
    ensures LeadsAround(g, c, l[j - 1].s, l[0].s)
  {
    var chain := l[..j];
    forall i | 0 <= i < j
      ensures chain[i] != C(c)
    {
      assert i > 0 ==> l[i] in l[1..j];
    }
    assert Chain(g, chain);
  }

  lemma {:induction false} NoRound(g: Graph, t: Times, l: seq<Node>)
    requires GraphOk(g) && AllFinished(g, t) && Guard(g) && Round(g, l)
    ensures false
    decreases if l[0] in t.at then t.at[l[0]] else 0
  {
    var k := EarlierOnRound(g, t, l);
    var r := Rotate(g, l, k);
    NoRound(g, t, r);
  }

  /** The search is silent, and no symbol of a choice leads to one listed before it, just when there is
      no loop at all. */
  lemma SilenceExact(g: Graph)
    requires GraphOk(g)
    ensures CheckAll(g, Unvisited(g), 0).Clean? && Guard(g) <==> NoRealLoop(g)
  {
    if CheckAll(g, Unvisited(g), 0).Clean? && Guard(g) {
      var t := SilentTimes(g);
      forall loop
        ensures !RealLoop(g, loop)
      {
        if RealLoop(g, loop) {
          var r := RoundFromLoop(g, loop);
          NoRound(g, t, r);
        }
      }
    }
    if NoRealLoop(g) {
      GuardNeeded(g);
      RaisedIsLoop(g);
    }
  }

  /* An order of symbols and choices */

  /** Dependents have higher ranks, and a symbol of a choice comes right after the choice: the order that
      the values rest on. */
  ghost predicate Orders(g: Graph, rank: map<Node, nat>)
    requires GraphOk(g)
  {
    && (forall n :: NodeOk(g, n) ==> n in rank)
    && (forall s: nat, d :: s < |g.deps| && d in g.deps[s] ==> rank[S(s)] < rank[d])
    && (forall s: nat :: s < |g.deps| && g.choiceOf[s].Some? ==> rank[S(s)] == rank[C(g.choiceOf[s].value)] + 1)
  }

  /** A choice and its symbols are at one level. */
  ghost function Level(g: Graph, rank: map<Node, nat>, n: Node): nat
    requires GraphOk(g) && NodeOk(g, n) && Orders(g, rank)
  {
    match n
    case S(s) => if g.choiceOf[s].Some? then 2 * rank[C(g.choiceOf[s].value)] + 1 else 2 * rank[n]
    case C(c) => 2 * rank[n] + 1
  }

  lemma {:induction false} LevelsRise(g: Graph, rank: map<Node, nat>, l: seq<Node>, i: nat, j: nat)
    requires GraphOk(g) && Orders(g, rank) && Chain(g, l) && i <= j < |l|
    ensures Level(g, rank, l[j]) <= Level(g, rank, l[i])
    ensures i < j && DependsOn(g, l[i], l[i + 1]) ==> Level(g, rank, l[j]) < Level(g, rank, l[i])
    decreases j - i
  {
    if i < j {
      assert Leads(g, l[i + 1], l[i]);
      LevelsRise(g, rank, l, i + 1, j);
    }
  }

  lemma OrderedNoLoop(g: Graph, rank: map<Node, nat>)
    requires GraphOk(g) && Orders(g, rank)
    ensures NoRealLoop(g)
  {
    forall loop
      ensures !RealLoop(g, loop)
    {
      if RealLoop(g, loop) {
        var r := RoundFromLoop(g, loop);
        LevelsRise(g, rank, r, 0, |r| - 1);
      }
    }
  }

  /** The graph in which a choice stands for its symbols: it comes after all symbols, takes over what its
      symbols depend on, and leads to them. */
  function Contracted(g: Graph): Graph {
    Graph(seq(|g.deps|, s requires 0 <= s < |g.deps| => StandIns(g, g.deps[s]))
          + seq(|g.members|, c requires 0 <= c < |g.members| => Symbols(g.members[c])),
          seq(|g.deps| + |g.members|, _ => None), [])
  }

  function StandIn(g: Graph, n: Node): Node {
    match n
    case S(s) => if s < |g.choiceOf| && g.choiceOf[s].Some? then S(|g.deps| + g.choiceOf[s].value) else n
    case C(c) => S(|g.deps| + c)
  }

  function StandIns(g: Graph, ns: seq<Node>): seq<Node> { seq(|ns|, i requires 0 <= i < |ns| => StandIn(g, ns[i])) }

  function Symbols(list: seq<nat>): seq<Node> { seq(|list|, i requires 0 <= i < |list| => S(list[i])) }

  lemma ContractedAt(g: Graph, x: nat)
    requires x < |g.deps| + |g.members|
    ensures Contracted(g).deps[x] == if x < |g.deps| then StandIns(g, g.deps[x]) else Symbols(g.members[x - |g.deps|])
  {
  }

  lemma ContractedOk(g: Graph)
    requires GraphOk(g)
    ensures GraphOk(Contracted(g)) && ChoiceFree(Contracted(g))
  {
    var k := Contracted(g);
    forall s: nat, i: nat | s < |k.deps| && i < |k.deps[s]|
      ensures k.deps[s][i].S? && NodeOk(k, k.deps[s][i])
    {
      if s < |g.deps| {
        assert NodeOk(g, g.deps[s][i]);
      }
    }
  }

  /** A node of the contracted graph as one of the graph. */
  function Original(g: Graph, n: Node): Node
    requires n.S?
  {
    if n.s < |g.deps| then n else C(n.s - |g.deps|)
  }

  /** A step in the contracted graph goes along a chain in the graph, which is real if it starts at a symbol. */
  lemma LiftStep(g: Graph, n: Node, n': Node) returns (l: seq<Node>)
    requires GraphOk(g) && DependsOn(Contracted(g), n', n)
    ensures n'.S? && |l| > 1 && Chain(g, l) && l[0] == Original(g, n') && l[|l| - 1] == Original(g, n)
    ensures n.s < |g.deps| ==> Real(g, l)
  {
    var i :| 0 <= i < |Contracted(g).deps[n.s]| && Contracted(g).deps[n.s][i] == n';
    if n.s < |g.deps| {
      var d := g.deps[n.s][i];
      assert n' == StandIn(g, d) && NodeOk(g, d);
      if d.S? && g.choiceOf[d.s].Some? {
        l := [C(g.choiceOf[d.s].value), d, n];
        assert DependsOn(g, l[1], l[2]);
      } else {
        l := [d, n];
        assert DependsOn(g, l[0], l[1]);
      }
    } else {
      var c := n.s - |g.deps|;
      assert n' == S(g.members[c][i]);
      l := [n', C(c)];
    }
  }

  lemma Joined(g: Graph, a: seq<Node>, b: seq<Node>)
    requires GraphOk(g) && a != [] && b != [] && Chain(g, a) && Chain(g, b) && a[|a| - 1] == b[0]
    ensures Chain(g, a + b[1..]) && (Real(g, a) || Real(g, b) ==> Real(g, a + b[1..]))
  {
    var l := a + b[1..];
    assert forall i :: 0 <= i < |b| ==> l[|a| - 1 + i] == b[i];
    forall i | 0 < i < |l|
      ensures Leads(g, l[i], l[i - 1])
    {
      if i >= |a| {
        assert l[i] == b[i - |a| + 1] && l[i - 1] == b[i - |a|];
      }
    }
    if i :| 0 < i < |a| && DependsOn(g, a[i - 1], a[i]) {
      assert DependsOn(g, l[i - 1], l[i]);
    } else if i :| 0 < i < |b| && DependsOn(g, b[i - 1], b[i]) {
      var j := |a| - 1 + i;
      assert l[j - 1] == b[i - 1] && l[j] == b[i];
      assert DependsOn(g, l[j - 1], l[j]);
    }
  }

  lemma {:induction false} Lift(g: Graph, l: seq<Node>, i: nat) returns (r: seq<Node>)
    requires GraphOk(g) && i < |l| && l[0].S? && NodeOk(Contracted(g), l[0])
    requires forall j :: 0 < j <= i ==> DependsOn(Contracted(g), l[j - 1], l[j])
    ensures forall j :: 0 <= j <= i ==> l[j].S?
    ensures r != [] && Chain(g, r) && r[0] == Original(g, l[0]) && r[|r| - 1] == Original(g, l[i])
    ensures |r| > i && ((exists j :: 0 < j <= i && l[j].s < |g.deps|) ==> Real(g, r))
  {
    if i == 0 {
      r := [Original(g, l[0])];
    } else {
      var step := LiftStep(g, l[i], l[i - 1]);
      var before := Lift(g, l, i - 1);
      Joined(g, before, step);
      r := before + step[1..];
    }
  }

  /** A cycle of the contracted graph is a loop of the graph. */
  lemma ContractedCycle(g: Graph, l: seq<Node>)
    requires GraphOk(g) && DepLoop(Contracted(g), l)
    ensures !NoRealLoop(g)
  {
    var k, last := Contracted(g), [l[|l| - 1]] + l;
    ContractedOk(g);
    assert DependsOn(k, l[|l| - 1], l[0]);
    assert NodeOk(k, last[0]);
    forall j | 0 < j <= |l|
      ensures DependsOn(k, last[j - 1], last[j])
    {
      assert j > 1 ==> DependsOn(k, l[j - 2], l[j - 1]);
    }
    var r := Lift(g, last, |l|);
    PassesSymbol(g, last, |l|);
    RealChain(g, r);
  }

  /** A real chain back to its start is a loop. */
  lemma RealChain(g: Graph, r: seq<Node>)
    requires GraphOk(g) && |r| > 1 && Chain(g, r) && r[0] == r[|r| - 1] && Real(g, r)
    ensures !NoRealLoop(g)
  {
    var loop := r[..|r| - 1];
    var i :| 0 < i < |r| && DependsOn(g, r[i - 1], r[i]);
    assert Leads(g, r[|r| - 1], r[|r| - 2]);
    assert i < |loop| ==> DependsOn(g, loop[i - 1], loop[i]);
    assert RealLoop(g, loop);
  }

  lemma PassesSymbol(g: Graph, l: seq<Node>, n: nat)
    requires GraphOk(g) && 0 < n < |l| && l[0] == l[n] && forall j :: 0 < j <= n ==>
        DependsOn(Contracted(g), l[j - 1], l[j])
    ensures exists j :: 0 < j <= n && l[j].S? && l[j].s < |g.deps|
  {
    assert DependsOn(Contracted(g), l[n - 1], l[n]) && DependsOn(Contracted(g), l[0], l[1]);
    if l[n].s >= |g.deps| {
      var i :| 0 <= i < |Contracted(g).deps[l[n].s]| && Contracted(g).deps[l[n].s][i] == l[n - 1];
      assert l[n - 1].s < |g.deps|;
    }
  }

  /** Without loops there is such an order. */
  lemma OrderFound(g: Graph) returns (rank: map<Node, nat>)
    requires GraphOk(g) && NoRealLoop(g)
    ensures Orders(g, rank)
  {
    var k := Contracted(g);
    ContractedOk(g);
    ChoiceFreeExact(k);
    if loop :| DepLoop(k, loop) {
      ContractedCycle(g, loop);
    }
    var r := SilentRanks(k);
    rank := RanksOf(g, r);
    forall s: nat, d | s < |g.deps| && d in g.deps[s]
      ensures rank[S(s)] < rank[d]
    {
      var i :| 0 <= i < |g.deps[s]| && g.deps[s][i] == d;
      assert NodeOk(g, d);
      RankRises(g, r, s, i);
    }
    forall s: nat | s < |g.deps| && g.choiceOf[s].Some?
      ensures rank[S(s)] == rank[C(g.choiceOf[s].value)] + 1
    {
      RankOfSymbol(g, r, s);
    }
  }

  function RanksOf(g: Graph, r: map<Node, nat>): (rank: map<Node, nat>)
    ensures forall n :: NodeOk(g, n) ==> n in rank && rank[n] == ContractedRank(g, r, n)
  {
    var nodes := (set s | 0 <= s < |g.deps| :: S(s)) + (set c | 0 <= c < |g.members| :: C(c));
    map n | n in nodes :: ContractedRank(g, r, n)
  }

  lemma RankRises(g: Graph, r: map<Node, nat>, s: nat, i: nat)
    requires GraphOk(g) && s < |g.deps| && i < |g.deps[s]|
    requires forall x: nat, d :: x < |Contracted(g).deps| && d in Contracted(g).deps[x] ==>
        S(x) in r && d in r && r[S(x)] < r[d]
    ensures ContractedRank(g, r, S(s)) < ContractedRank(g, r, g.deps[s][i])
  {
    var d := g.deps[s][i];
    ContractedAt(g, s);
    assert StandIn(g, d) == Contracted(g).deps[s][i];
    assert StandIn(g, d) in Contracted(g).deps[s];
    assert S(s) in r && StandIn(g, d) in r && r[S(s)] < r[StandIn(g, d)];
    if g.choiceOf[s].Some? {
      RankOfSymbol(g, r, s);
    }
  }

  function ContractedRank(g: Graph, r: map<Node, nat>, n: Node): nat {
    var m := StandIn(g, n);
    if m !in r then 0 else 2 * r[m] + if n.S? && m != n then 1 else 0
  }

  lemma RankOfSymbol(g: Graph, r: map<Node, nat>, s: nat)
    requires GraphOk(g) && s < |g.deps| && g.choiceOf[s].Some?
    requires forall x: nat, d :: x < |Contracted(g).deps| && d in Contracted(g).deps[x] ==>
        S(x) in r && d in r && r[S(x)] < r[d]
    ensures S(s) in r && StandIn(g, S(s)) in r && r[StandIn(g, S(s))] < r[S(s)]
  {
    var c := g.choiceOf[s].value;
    var i :| 0 <= i < |g.members[c]| && g.members[c][i] == s;
    var x := |g.deps| + c;
    ContractedAt(g, x);
    assert S(s) == Contracted(g).deps[x][i];
    assert S(s) in Contracted(g).deps[x];
  }

  /** Such an order exists just when there is no loop; so just when the search is silent and no symbol of a
      choice leads to one listed before it. */
  lemma OrderExact(g: Graph)
    requires GraphOk(g)
    ensures (exists rank :: Orders(g, rank)) <==> CheckAll(g, Unvisited(g), 0).Clean? && Guard(g)
  {
    SilenceExact(g);
    if rank :| Orders(g, rank) {
      OrderedNoLoop(g, rank);
    }
    if NoRealLoop(g) {
      var rank := OrderFound(g);
    }
  }
}
