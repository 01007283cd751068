/** The menu tree: nodes linked to their next sibling, first child and parent, rewritten in place. */
module KconfigMenu {

  /** What a node holds: nothing for an if, a choice, or anything else. */
  datatype Holds = If | Choice | Other

  class MenuNode {
    const item: Holds
    const prompt: bool
    var next: MenuNode?
    var list: MenuNode?
    var parent: MenuNode?

    constructor (item: Holds, prompt: bool)
      ensures this.item == item && this.prompt == prompt && next == null && list == null && parent == null
    {
      this.item := item;
      this.prompt := prompt;
      next, list, parent := null, null, null;
    }
  }

  /** A node and its children. */
  datatype Tree = Tree(node: MenuNode, kids: seq<Tree>)

  /** The nodes in definition order: each node before its children, and these before the next node. */
  ghost function Pre(ts: seq<Tree>): seq<MenuNode> {
    if ts == [] then [] else [ts[0].node] + Pre(ts[0].kids) + Pre(ts[1..])
  }

  ghost function Nodes(ts: seq<Tree>): set<MenuNode> { set n | n in Pre(ts) }

  ghost predicate Distinct(ns: seq<MenuNode>) { forall i, j :: 0 <= i < j < |ns| ==> ns[i] != ns[j] }

  /** The links of a node. */
  datatype Links = Links(next: MenuNode?, list: MenuNode?, parent: MenuNode?)

  type Heap = map<MenuNode, Links>

  /** The links of some nodes as they are now. */
  ghost function Now(ns: set<MenuNode>): Heap
    reads ns
  {
    map n | n in ns :: Links(n.next, n.list, n.parent)
  }

  /** The nodes are linked as the trees say, from `first` on up to `end`, with the given parent. */
  ghost predicate Linked(h: Heap, ts: seq<Tree>, first: MenuNode?, end: MenuNode?, parent: MenuNode?)
    decreases ts
  {
    if ts == [] then first == end
    else
      && first == ts[0].node && ts[0].node in h && h[ts[0].node].parent == parent
      && Linked(h, ts[0].kids, h[ts[0].node].list, null, ts[0].node)
      && Linked(h, ts[1..], h[ts[0].node].next, end, parent)
  }

  /* Definition order */

  lemma {:induction false} PreConcat(a: seq<Tree>, b: seq<Tree>)
    ensures Pre(a + b) == Pre(a) + Pre(b)
    decreases |a|
  {
    if a == [] {
      assert a + b == b;
    } else {
      assert (a + b)[1..] == a[1..] + b;
      PreConcat(a[1..], b);
    }
  }

  lemma {:induction false} LinkedConcat(h: Heap, a: seq<Tree>, b: seq<Tree>, first: MenuNode?, mid: MenuNode?,
          end: MenuNode?, parent: MenuNode?)
    requires Linked(h, a, first, mid, parent) && Linked(h, b, mid, end, parent)
    ensures Linked(h, a + b, first, end, parent)
    decreases |a|
  {
    if a == [] {
      assert a + b == b;
    } else {
      assert (a + b)[1..] == a[1..] + b;
      LinkedConcat(h, a[1..], b, h[a[0].node].next, mid, end, parent);
    }
  }

  /** Nodes that are not touched stay linked. */
  lemma {:induction false} Stays(h: Heap, h': Heap, ts: seq<Tree>, first: MenuNode?, end: MenuNode?, parent: MenuNode?)
    requires Linked(h, ts, first, end, parent)
    requires forall n :: n in Pre(ts) && n in h ==> n in h' && h'[n] == h[n]
    ensures Linked(h', ts, first, end, parent)
    decreases ts
  {
    if ts != [] {
      var n := ts[0].node;
      assert Pre(ts) == [n] + Pre(ts[0].kids) + Pre(ts[1..]);
      Stays(h, h', ts[0].kids, h[n].list, null, n);
      Stays(h, h', ts[1..], h[n].next, end, parent);
    }
  }

  lemma DistinctParts(a: seq<MenuNode>, b: seq<MenuNode>)
    requires Distinct(a + b)
    ensures Distinct(a) && Distinct(b) && forall n :: n in a ==> n !in b
  {
    assert forall i :: 0 <= i < |a| ==> (a + b)[i] == a[i];
    assert forall i :: 0 <= i < |b| ==> (a + b)[|a| + i] == b[i];
  }

  /** The parts of the first tree and of the others. */
  lemma DistinctFirst(ts: seq<Tree>)
    requires ts != [] && Distinct(Pre(ts))
    ensures Distinct(Pre(ts[0].kids)) && Distinct(Pre(ts[1..]))
    ensures ts[0].node !in Pre(ts[0].kids) && ts[0].node !in Pre(ts[1..])
    ensures forall n :: n in Pre(ts[0].kids) ==> n !in Pre(ts[1..])
  {
    DistinctParts([ts[0].node] + Pre(ts[0].kids), Pre(ts[1..]));
    DistinctParts([ts[0].node], Pre(ts[0].kids));
    assert ts[0].node in [ts[0].node] + Pre(ts[0].kids) && ts[0].node in [ts[0].node];
    assert forall n :: n in Pre(ts[0].kids) ==> n in [ts[0].node] + Pre(ts[0].kids);
  }

  /* Flattening */

  /** A node without a prompt that is not a choice gives up its children. */
  predicate Loose(n: MenuNode) { !n.prompt && n.item != Choice }

  ghost function Flat(ts: seq<Tree>): seq<Tree>
    decreases |Pre(ts)|
  {
    if ts == [] then []
    else if ts[0].kids != [] && Loose(ts[0].node) then
      PreConcat(ts[0].kids, ts[1..]);
      [Tree(ts[0].node, [])] + Flat(ts[0].kids + ts[1..])
    else [ts[0]] + Flat(ts[1..])
  }

  /** Children that come after their node instead of below it keep their place. */
  lemma PreSplice(t: Tree, rest: seq<Tree>)
    ensures Pre([Tree(t.node, [])] + (t.kids + rest)) == Pre([t] + rest)
  {
    PreConcat(t.kids, rest);
    assert ([Tree(t.node, [])] + (t.kids + rest))[1..] == t.kids + rest;
    assert ([t] + rest)[1..] == rest;
  }

  lemma PreCons(t: Tree, a: seq<Tree>, b: seq<Tree>)
    requires Pre(a) == Pre(b)
    ensures Pre([t] + a) == Pre([t] + b)
  {
    assert ([t] + a)[1..] == a && ([t] + b)[1..] == b;
  }

  /** Flattening keeps the definition order. */
  lemma {:induction false} FlatKeepsOrder(ts: seq<Tree>)
    ensures Pre(Flat(ts)) == Pre(ts)
    decreases |Pre(ts)|
  {
    if ts != [] {
      var t, rest := ts[0], ts[1..];
      assert ts == [t] + rest;
      if t.kids != [] && Loose(t.node) {
        PreConcat(t.kids, rest);
        FlatKeepsOrder(t.kids + rest);
        PreCons(Tree(t.node, []), Flat(t.kids + rest), t.kids + rest);
        PreSplice(t, rest);
      } else {
        FlatKeepsOrder(rest);
        PreCons(t, Flat(rest), rest);
      }
    }
  }

  function WithParent(h: Heap, n: MenuNode, parent: MenuNode?): Heap
    requires n in h
  {
    h[n := h[n].(parent := parent)]
  }

  /** The first node of `rest` gets another parent. */
  lemma ParentSet(h: Heap, n: MenuNode, parent: MenuNode?, rest: seq<Tree>, was: MenuNode?)
    requires rest != [] && Linked(h, rest, n, null, was) && Distinct(Pre(rest))
    ensures n == rest[0].node && n in h
    ensures Linked(WithParent(h, n, parent), [rest[0]], n, h[n].next, parent)
    ensures Linked(WithParent(h, n, parent), rest[1..], h[n].next, null, was)
  {
    DistinctFirst(rest);
    var h', t := WithParent(h, n, parent), rest[0];
    Stays(h, h', t.kids, h[n].list, null, n);
    Stays(h, h', rest[1..], h[n].next, null, was);
    assert Linked(h', [t][1..], h[n].next, h[n].next, parent);
  }

  /** The trees `done` have the new parent, and the trees from node `n` on still the old one. */
  ghost predicate Moving(h: Heap, ts: seq<Tree>, done: seq<Tree>, rest: seq<Tree>, first: MenuNode?, n: MenuNode?,
          parent: MenuNode?, was: MenuNode?) {
    && done + rest == ts && Distinct(Pre(ts))
    && Linked(h, done, first, n, parent) && Linked(h, rest, n, null, was)
  }

  /** Nodes outside of a set have kept their links. */
  ghost predicate SameOff(h: Heap, h': Heap, ns: set<MenuNode>) {
    h.Keys == h'.Keys && forall n :: n in h && n !in ns ==> h'[n] == h[n]
  }

  lemma ParentMoves(h: Heap, ts: seq<Tree>, done: seq<Tree>, rest: seq<Tree>, first: MenuNode?, n: MenuNode,
          parent: MenuNode?, was: MenuNode?)
    requires rest != [] && Moving(h, ts, done, rest, first, n, parent, was)
    ensures n == rest[0].node && n in h && n in Nodes(ts)
    ensures Moving(WithParent(h, n, parent), ts, done + [rest[0]], rest[1..], first, h[n].next, parent, was)
    ensures h[n].next == null <==> rest[1..] == []
  {
    PreConcat(done, rest);
    DistinctParts(Pre(done), Pre(rest));
    assert n in Pre(rest);
    ParentSet(h, n, parent, rest, was);
    Stays(h, WithParent(h, n, parent), done, first, n, parent);
    LinkedConcat(WithParent(h, n, parent), done, [rest[0]], first, n, h[n].next, parent);
    assert done + [rest[0]] + rest[1..] == done + rest;
  }

  /** Sets the parent of one node. */
  method SetParent(n: MenuNode, parent: MenuNode?, ghost ns: set<MenuNode>, ghost h: Heap)
    requires n in ns && h == Now(ns)
    modifies n`parent
    ensures Now(ns) == WithParent(h, n, parent)
  {
    n.parent := parent;
    assert Now(ns) == WithParent(h, n, parent);
  }

  /** Gives the nodes of a list another parent and finds the last one. */
  method Reparent(first: MenuNode, parent: MenuNode?, ghost ns: set<MenuNode>, ghost ts: seq<Tree>,
          ghost was: MenuNode?)
    returns (last: MenuNode)
    requires ts != [] && Nodes(ts) <= ns && Linked(Now(ns), ts, first, null, was) && Distinct(Pre(ts))
    modifies ns`parent
    ensures Linked(Now(ns), ts, first, null, parent) && last == ts[|ts| - 1].node
    ensures SameOff(old(Now(ns)), Now(ns), Nodes(ts))
  {
    last := first;
    ghost var done: seq<Tree>, rest: seq<Tree> := [], ts;
    ghost var h := Now(ns);
    while true
      invariant h == Now(ns) && rest != []
      invariant Moving(h, ts, done, rest, first, last, parent, was)
      invariant SameOff(old(Now(ns)), h, Nodes(ts))
      decreases |rest|
    {
      ParentMoves(h, ts, done, rest, first, last, parent, was);
      SetParent(last, parent, ns, h);
      h := WithParent(h, last, parent);
      done, rest := done + [rest[0]], rest[1..];
      if last.next == null {
        break;
      }
      last := last.next;
    }
    assert done == ts;
  }

  function WithNext(h: Heap, n: MenuNode, next: MenuNode?): Heap
    requires n in h
  {
    h[n := h[n].(next := next)]
  }

  function WithList(h: Heap, n: MenuNode, list: MenuNode?): Heap
    requires n in h
  {
    h[n := h[n].(list := list)]
  }

  /** Whatever follows the last node follows the list. */
  lemma {:induction false} LastNext(h: Heap, ts: seq<Tree>, first: MenuNode?, parent: MenuNode?, x: MenuNode?)
    requires ts != [] && Linked(h, ts, first, null, parent) && Distinct(Pre(ts))
    ensures var last := ts[|ts| - 1].node;
            last in h && last in Nodes(ts) && Linked(WithNext(h, last, x), ts, first, x, parent)
    decreases |ts|
  {
    var t, rest := ts[0], ts[1..];
    DistinctFirst(ts);
    if |ts| == 1 {
      Stays(h, WithNext(h, t.node, x), t.kids, h[t.node].list, null, t.node);
    } else {
      LastNext(h, rest, h[t.node].next, parent, x);
      var last := rest[|rest| - 1].node;
      assert last in Pre(rest) && last == ts[|ts| - 1].node;
      Stays(h, WithNext(h, last, x), t.kids, h[t.node].list, null, t.node);
    }
  }

  /** The trees `done` are processed and end at node `n`, where the others start; `order` is the definition
      order of all. */
  ghost predicate Halfway(h: Heap, order: seq<MenuNode>, done: seq<Tree>, rest: seq<Tree>, first: MenuNode?,
          n: MenuNode?, parent: MenuNode?) {
    && Pre(done) + Pre(rest) == order && Distinct(order)
    && Linked(h, done, first, n, parent) && Linked(h, rest, n, null, parent)
  }

  /** What the three assignments make of a node whose children have their new parent. */
  lemma Spliced(h: Heap, h1: Heap, t: Tree, rest: seq<Tree>, last: MenuNode, parent: MenuNode?)
    requires t.kids != [] && Linked(h, [t] + rest, t.node, null, parent) && Distinct(Pre([t] + rest))
    requires SameOff(h, h1, Nodes(t.kids)) && last == t.kids[|t.kids| - 1].node
    requires Linked(h1, t.kids, h[t.node].list, null, parent)
    ensures last in h1 && last in Nodes(t.kids) && t.node in h && t.node in h1 && t.node != last
    ensures var h4 := WithList(WithNext(WithNext(h1, last, h[t.node].next), t.node, h[t.node].list), t.node, null);
            Linked(h4, [Tree(t.node, [])] + (t.kids + rest), t.node, null, parent)
  {
    var n := t.node;
    assert ([t] + rest)[1..] == rest;
    DistinctFirst([t] + rest);
    LastNext(h1, t.kids, h[n].list, parent, h[n].next);
    var h2 := WithNext(h1, last, h[n].next);
    var h4 := WithList(WithNext(h2, n, h[n].list), n, null);
    Stays(h2, h4, t.kids, h[n].list, h[n].next, parent);
    Stays(h, h4, rest, h[n].next, null, parent);
    LinkedConcat(h4, t.kids, rest, h[n].list, h[n].next, null, parent);
    assert ([Tree(n, [])] + (t.kids + rest))[1..] == t.kids + rest;
  }

  lemma SameOffTwice(h0: Heap, h1: Heap, h2: Heap, small: set<MenuNode>, big: set<MenuNode>)
    requires SameOff(h0, h1, big) && SameOff(h1, h2, small) && small <= big
    ensures SameOff(h0, h2, big)
  {
  }

  /** The three assignments that put the children of node `n` behind it. */
  method Relink(n: MenuNode, last: MenuNode, ghost ns: set<MenuNode>)
    requires n in ns && last in ns && n != last
    modifies n, last
    ensures Now(ns) == WithList(WithNext(WithNext(old(Now(ns)), last, old(n.next)), n, old(n.list)), n, null)
  {
    last.next := n.next;
    n.next := n.list;
    n.list := null;
  }

  /** Puts the children of a node behind it. */
  method Splice(n: MenuNode, ghost ns: set<MenuNode>, ghost t: Tree, ghost rest: seq<Tree>, ghost parent: MenuNode?)
    requires t.kids != [] && n == t.node && Nodes([t] + rest) <= ns
    requires Linked(Now(ns), [t] + rest, n, null, parent) && Distinct(Pre([t] + rest))
    modifies ns
    ensures Linked(Now(ns), [Tree(n, [])] + (t.kids + rest), n, null, parent)
    ensures SameOff(old(Now(ns)), Now(ns), Nodes([t] + rest))
  {
    ghost var h := Now(ns);
    KidsLinked(h, t, rest, parent);
    var last := Reparent(n.list, n.parent, ns, t.kids, n);
    ghost var h1 := Now(ns);
    Spliced(h, h1, t, rest, last, parent);
    assert h1[n] == h[n];
    Relink(n, last, ns);
    assert SameOff(h1, Now(ns), Nodes([t] + rest));
    SameOffTwice(h, h1, Now(ns), Nodes([t] + rest), Nodes([t] + rest));
  }

  lemma KidsLinked(h: Heap, t: Tree, rest: seq<Tree>, parent: MenuNode?)
    requires t.kids != [] && Linked(h, [t] + rest, t.node, null, parent) && Distinct(Pre([t] + rest))
    ensures t.node in h && h[t.node].parent == parent && h[t.node].list != null
    ensures Linked(h, t.kids, h[t.node].list, null, t.node) && Distinct(Pre(t.kids))
    ensures t.node !in Nodes(t.kids) && t.node in Nodes([t] + rest) && Nodes(t.kids) <= Nodes([t] + rest)
  {
    assert ([t] + rest)[1..] == rest && Pre([t] + rest) == [t.node] + Pre(t.kids) + Pre(rest);
    DistinctFirst([t] + rest);
  }

  lemma AfterSplice(h: Heap, h': Heap, order: seq<MenuNode>, done: seq<Tree>, t: Tree, more: seq<Tree>,
          first: MenuNode?, parent: MenuNode?)
    requires Halfway(h, order, done, [t] + more, first, t.node, parent) && SameOff(h, h', Nodes([t] + more))
    requires Linked(h', [Tree(t.node, [])] + (t.kids + more), t.node, null, parent)
    ensures Halfway(h', order, done, [Tree(t.node, [])] + (t.kids + more), first, t.node, parent)
  {
    PreSplice(t, more);
    DistinctParts(Pre(done), Pre([t] + more));
    Stays(h, h', done, first, t.node, parent);
  }

  /** The loop has come to node `n`. */
  ghost predicate Flattening(h0: Heap, h: Heap, ts: seq<Tree>, done: seq<Tree>, rest: seq<Tree>, first: MenuNode?,
          n: MenuNode?, parent: MenuNode?) {
    Halfway(h, Pre(ts), done, rest, first, n, parent) && done + Flat(rest) == Flat(ts) && SameOff(h0, h, Nodes(ts))
  }

  predicate GivesUp(t: Tree) { t.kids != [] && Loose(t.node) }

  /** A node that gives up its children has none; they are to be flattened next. */
  lemma GivenUp(h0: Heap, h: Heap, h': Heap, ts: seq<Tree>, done: seq<Tree>, t: Tree, more: seq<Tree>,
          first: MenuNode?, parent: MenuNode?)
    requires Flattening(h0, h, ts, done, [t] + more, first, t.node, parent) && GivesUp(t)
    requires Linked(h', [Tree(t.node, [])] + (t.kids + more), t.node, null, parent) && SameOff(h, h', Nodes([t] + more))
    ensures Flattening(h0, h', ts, done, [Tree(t.node, [])] + (t.kids + more), first, t.node, parent)
    ensures |Pre([Tree(t.node, [])] + (t.kids + more))| == |Pre([t] + more)|
  {
    RestOf(h, Pre(ts), done, t, more, first, t.node, parent);
    AfterSplice(h, h', Pre(ts), done, t, more, first, parent);
    SameOffTwice(h0, h, h', Nodes([t] + more), Nodes(ts));
    FlatStep(t, more);
    FlatStep(Tree(t.node, []), t.kids + more);
    PreSplice(t, more);
  }

  /** The loop goes on behind a node that keeps its children. */
  lemma GoesOn(h0: Heap, h: Heap, ts: seq<Tree>, done: seq<Tree>, rest: seq<Tree>, first: MenuNode?, n: MenuNode,
          parent: MenuNode?)
    requires Flattening(h0, h, ts, done, rest, first, n, parent) && rest != [] && !GivesUp(rest[0])
    ensures n in h && Flattening(h0, h, ts, done + [rest[0]], rest[1..], first, h[n].next, parent)
    ensures |Pre(rest[1..])| < |Pre(rest)|
  {
    assert n in h && Halfway(h, Pre(ts), done + [rest[0]], rest[1..], first, h[n].next, parent) by {
      OneDone(h, Pre(ts), done, rest, first, n, parent);
    }
    FlatKept(done, rest);
  }

  lemma FlatKept(done: seq<Tree>, rest: seq<Tree>)
    requires rest != [] && !GivesUp(rest[0])
    ensures done + Flat(rest) == done + [rest[0]] + Flat(rest[1..]) && |Pre(rest[1..])| < |Pre(rest)|
  {
    assert Flat(rest) == [rest[0]] + Flat(rest[1..]);
  }

  /** Flattens one node. */
  method FlattenNode(node: MenuNode, ghost ns: set<MenuNode>, ghost h0: Heap, ghost ts: seq<Tree>,
          ghost done: seq<Tree>, ghost rest: seq<Tree>,
                     ghost first: MenuNode?, ghost parent: MenuNode?) returns (ghost rest': seq<Tree>)
    requires Nodes(ts) <= ns && Flattening(h0, Now(ns), ts, done, rest, first, node, parent)
    modifies ns
    ensures rest' != [] && !GivesUp(rest'[0]) && Flattening(h0, Now(ns), ts, done, rest', first, node, parent)
    ensures |Pre(rest')| == |Pre(rest)|
  {
    ghost var h, t, more := Now(ns), rest[0], rest[1..];
    assert rest == [t] + more;
    RestOf(h, Pre(ts), done, t, more, first, node, parent);
    rest' := rest;
    if node.list != null && Loose(node) {
      Splice(node, ns, t, more, parent);
      GivenUp(h0, h, Now(ns), ts, done, t, more, first, parent);
      rest' := [Tree(node, [])] + (t.kids + more);
    }
  }

  /** Flattens a list of nodes: the children of nodes without prompts come behind them. */
  method Flatten(first: MenuNode?, ghost ns: set<MenuNode>, ghost ts: seq<Tree>, ghost parent: MenuNode?)
    requires Nodes(ts) <= ns && Linked(Now(ns), ts, first, null, parent) && Distinct(Pre(ts))
    modifies ns
    ensures Linked(Now(ns), Flat(ts), first, null, parent) && SameOff(old(Now(ns)), Now(ns), Nodes(ts))
  {
    var node: MenuNode? := first;
    ghost var done: seq<Tree>, rest: seq<Tree> := [], ts;
    while node != null
      invariant Flattening(old(Now(ns)), Now(ns), ts, done, rest, first, node, parent)
      decreases |Pre(rest)|
    {
      ghost var spliced := FlattenNode(node, ns, old(Now(ns)), ts, done, rest, first, parent);
      GoesOn(old(Now(ns)), Now(ns), ts, done, spliced, first, node, parent);
      assert node in Nodes(ts) by {
        RestOf(Now(ns), Pre(ts), done, spliced[0], spliced[1..], first, node, parent);
      }
      done, rest := done + [spliced[0]], spliced[1..];
      node := node.next;
    }
    assert rest == [] && done + Flat([]) == done;
  }

  /** The first of the trees that are not processed yet. */
  lemma RestOf(h: Heap, order: seq<MenuNode>, done: seq<Tree>, t: Tree, more: seq<Tree>, first: MenuNode?,
          n: MenuNode, parent: MenuNode?)
    requires Halfway(h, order, done, [t] + more, first, n, parent)
    ensures n == t.node && n in h && n in order && Distinct(Pre([t] + more)) && (h[n].list == null <==> t.kids == [])
    ensures forall x :: x in Pre([t] + more) ==> x in order
    ensures Linked(h, [t] + more, n, null, parent)
  {
    DistinctParts(Pre(done), Pre([t] + more));
    assert ([t] + more)[0] == t && n in Pre([t] + more);
    assert Linked(h, t.kids, h[n].list, null, n);
  }

  /** What flattening one node adds. */
  lemma FlatStep(t: Tree, more: seq<Tree>)
    ensures if t.kids != [] && Loose(t.node)
            then Flat([t] + more) == [Tree(t.node, [])] + Flat(t.kids + more) &&
                |Pre(t.kids + more)| < |Pre([t] + more)|
            else Flat([t] + more) == [t] + Flat(more) && |Pre(more)| < |Pre([t] + more)|
  {
    assert ([t] + more)[0] == t && ([t] + more)[1..] == more;
    PreConcat(t.kids, more);
  }

  lemma OneDone(h: Heap, order: seq<MenuNode>, done: seq<Tree>, rest: seq<Tree>, first: MenuNode?, n: MenuNode,
          parent: MenuNode?)
    requires Halfway(h, order, done, rest, first, n, parent)
    ensures rest != [] && n == rest[0].node && n in h
    ensures Halfway(h, order, done + [rest[0]], rest[1..], first, h[n].next, parent)
  {
    LinkedConcat(h, done, [rest[0]], first, n, h[n].next, parent);
    PreConcat(done, [rest[0]]);
    assert Pre(rest) == Pre([rest[0]]) + Pre(rest[1..]);
  }
}
