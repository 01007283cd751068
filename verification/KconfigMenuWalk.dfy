/** Finishing a whole menu tree in place, and walking over it by its links. */
module KconfigMenuWalk {
  import opened KconfigMenu
  import opened KconfigMenuFinish

  /* Finishing */

  /** The children `before` node `cur` are finished, the others still to be. */
  ghost predicate Finishing(h0: Heap, h: Heap, ts: seq<Tree>, before: seq<Tree>, rest: seq<Tree>, first: MenuNode?,
          cur: MenuNode?, node: MenuNode) {
    && ts == before + rest && SameOff(h0, h, Nodes(ts))
    && Linked(h, FinishedBelow(before), first, cur, node) && Linked(h, rest, cur, null, node)
  }

  lemma {:induction false} FinishedBelowConcat(a: seq<Tree>, b: seq<Tree>)
    ensures FinishedBelow(a + b) == FinishedBelow(a) + FinishedBelow(b)
    decreases |a|
  {
    if a == [] {
      assert a + b == b;
    } else {
      assert (a + b)[1..] == a[1..] + b;
      FinishedBelowConcat(a[1..], b);
    }
  }

  /** Both lists have no duplicates, and nothing in common. */
  lemma DistinctJoin(a: seq<MenuNode>, b: seq<MenuNode>)
    requires Distinct(a) && Distinct(b) && forall n :: n in a ==> n !in b
    ensures Distinct(a + b)
  {
    var all := a + b;
    forall i, j | 0 <= i < j < |all|
      ensures all[i] != all[j]
    {
      if i < |a| <= j {
        assert all[i] in a && all[j] == b[j - |a|];
      }
    }
  }

  predicate Among(a: seq<MenuNode>, b: seq<MenuNode>) { forall i :: 0 <= i < |a| ==> a[i] in b }

  lemma {:induction false} WithoutIfsAmong(ns: seq<MenuNode>)
    requires Distinct(ns)
    ensures Distinct(WithoutIfs(ns)) && Among(WithoutIfs(ns), ns)
  {
    if ns != [] {
      assert ns == [ns[0]] + ns[1..];
      DistinctParts([ns[0]], ns[1..]);
      WithoutIfsAmong(ns[1..]);
      if ns[0].item != If {
        DistinctJoin([ns[0]], WithoutIfs(ns[1..]));
      }
    }
  }

  /** Finishing the levels below leaves some of the nodes, without duplicates. */
  lemma {:induction false} FinishedBelowAmong(ts: seq<Tree>)
    requires Distinct(Pre(ts)) && IfsOk(Pre(ts))
    ensures Distinct(Pre(FinishedBelow(ts))) && Among(Pre(FinishedBelow(ts)), Pre(ts))
    decreases |ts|
  {
    if ts != [] {
      var n, k, r := [ts[0].node], Pre(ts[0].kids), Pre(ts[1..]);
      assert Pre(ts) == n + k + r;
      assert forall i :: 0 <= i < |k| ==> (n + k + r)[1 + i] == k[i];
      assert forall i :: 0 <= i < |r| ==> (n + k + r)[1 + |k| + i] == r[i];
      DistinctFirst(ts);
      FinishedOrder(ts[0].kids);
      WithoutIfsAmong(k);
      FinishedBelowAmong(ts[1..]);
      var k', r' := WithoutIfs(k), Pre(FinishedBelow(ts[1..]));
      assert FinishedBelow(ts)[1..] == FinishedBelow(ts[1..]);
      assert Pre(FinishedBelow(ts)) == n + k' + r';
      DistinctJoin(n, k');
      DistinctJoin(n + k', r');
    }
  }

  lemma IfsParts(a: seq<MenuNode>, b: seq<MenuNode>)
    requires IfsOk(a + b)
    ensures IfsOk(a) && IfsOk(b)
  {
    assert forall i :: 0 <= i < |a| ==> (a + b)[i] == a[i];
    assert forall i :: 0 <= i < |b| ==> (a + b)[|a| + i] == b[i];
  }

  /** The parts of a list, the tree `t` in the middle. */
  lemma Parts(before: seq<Tree>, t: Tree, more: seq<Tree>)
    requires Distinct(Pre(before + ([t] + more))) && IfsOk(Pre(before + ([t] + more)))
    ensures Distinct(Pre(before)) && IfsOk(Pre(before)) && Distinct(Pre(t.kids)) && IfsOk(Pre(t.kids))
    ensures t.node !in Nodes(t.kids) && Nodes(t.kids) + {t.node} <= Nodes(before + ([t] + more))
    ensures forall n :: n in Pre(before) || n in Pre(more) ==> n !in Nodes(t.kids) + {t.node}
  {
    var rest := [t] + more;
    PreConcat(before, rest);
    DistinctParts(Pre(before), Pre(rest));
    IfsParts(Pre(before), Pre(rest));
    assert rest[0] == t && rest[1..] == more && Pre(rest) == [t.node] + Pre(t.kids) + Pre(more);
    assert Distinct(Pre(t.kids)) && t.node !in Pre(t.kids) && forall n :: n in Pre(more) ==>
        n !in Nodes(t.kids) + {t.node} by {
      DistinctFirst(rest);
    }
    IfsParts([t.node] + Pre(t.kids), Pre(more));
    IfsParts([t.node], Pre(t.kids));
  }

  /** One more child is finished. */
  lemma ChildFinished(h0: Heap, h: Heap, h': Heap, ts: seq<Tree>, before: seq<Tree>, t: Tree, more: seq<Tree>,
          first: MenuNode?, node: MenuNode)
    requires Finishing(h0, h, ts, before, [t] + more, first, t.node, node) && Distinct(Pre(ts)) && IfsOk(Pre(ts))
    requires t.node in h && SameOff(h, h', Nodes(t.kids) + {t.node}) && t.node in h'
    requires h'[t.node].next == h[t.node].next && h'[t.node].parent == h[t.node].parent
    requires Linked(h', Finished(t.kids), h'[t.node].list, null, t.node)
    ensures Finishing(h0, h', ts, before + [t], more, first, h'[t.node].next, node)
  {
    var n := t.node;
    assert Linked(h, more, h[n].next, null, node) && h[n].parent == node by {
      assert ([t] + more)[1..] == more;
    }
    Parts(before, t, more);
    assert Linked(h', FinishedBelow(before + [t]), first, h'[n].next, node) &&
        Linked(h', more, h'[n].next, null, node) by {
      OneMoreLinked(h, h', before, t, more, first, node);
    }
    assert SameOff(h0, h', Nodes(ts)) by {
      SameOffTwice(h0, h, h', Nodes(t.kids) + {n}, Nodes(ts));
    }
    TreesRegroup(before, [t], more);
  }

  lemma TreesRegroup(a: seq<Tree>, b: seq<Tree>, c: seq<Tree>)
    ensures a + b + c == a + (b + c)
  {
  }

  lemma OneMoreLinked(h: Heap, h': Heap, before: seq<Tree>, t: Tree, more: seq<Tree>, first: MenuNode?, node: MenuNode)
    requires Distinct(Pre(before)) && IfsOk(Pre(before)) && t.node in h && t.node in h'
    requires SameOff(h, h', Nodes(t.kids) + {t.node})
    requires forall n :: n in Pre(before) || n in Pre(more) ==> n !in Nodes(t.kids) + {t.node}
    requires Linked(h, FinishedBelow(before), first, t.node, node) && Linked(h, more, h[t.node].next, null, node)
    requires h'[t.node].next == h[t.node].next && h'[t.node].parent == node
    requires Linked(h', Finished(t.kids), h'[t.node].list, null, t.node)
    ensures Linked(h', FinishedBelow(before + [t]), first, h'[t.node].next, node)
    ensures Linked(h', more, h'[t.node].next, null, node)
  {
    var n, t' := t.node, Tree(t.node, Finished(t.kids));
    FinishedBelowAmong(before);
    Stays(h, h', FinishedBelow(before), first, n, node);
    Stays(h, h', more, h[n].next, null, node);
    assert Linked(h', [t'], n, h[n].next, node) by {
      assert Linked(h', [t'][1..], h[n].next, h[n].next, node);
    }
    LinkedConcat(h', FinishedBelow(before), [t'], first, n, h[n].next, node);
    assert FinishedBelow(before + [t]) == FinishedBelow(before) + [t'] by {
      FinishedBelowConcat(before, [t]);
      assert FinishedBelow([t]) == [t'] + FinishedBelow([t][1..]) == [t'];
    }
  }

  /** What is known of the next child. */
  lemma NextChild(h0: Heap, h: Heap, ts: seq<Tree>, before: seq<Tree>, t: Tree, more: seq<Tree>, first: MenuNode?,
          cur: MenuNode, node: MenuNode)
    requires Finishing(h0, h, ts, before, [t] + more, first, cur, node) && Distinct(Pre(ts)) && IfsOk(Pre(ts))
    ensures cur == t.node && cur in h && cur !in Nodes(t.kids) && Nodes(t.kids) + {cur} <= Nodes(ts)
    ensures Linked(h, t.kids, h[cur].list, null, cur) && Distinct(Pre(t.kids)) && IfsOk(Pre(t.kids))
  {
    assert ([t] + more)[0] == t;
    Parts(before, t, more);
  }

  /** Finishes the levels below the children of a node. */
  method FinishBelow(node: MenuNode, ghost ns: set<MenuNode>, ghost ts: seq<Tree>)
    requires node in ns && node !in Nodes(ts) && Nodes(ts) <= ns
    requires Linked(Now(ns), ts, node.list, null, node) && Distinct(Pre(ts)) && IfsOk(Pre(ts))
    modifies ns
    ensures Linked(Now(ns), FinishedBelow(ts), node.list, null, node) && SameOff(old(Now(ns)), Now(ns), Nodes(ts))
    decreases ts, 0
  {
    var cur := node.list;
    ghost var before: seq<Tree>, rest: seq<Tree> := [], ts;
    while cur != null
      invariant Finishing(old(Now(ns)), Now(ns), ts, before, rest, old(node.list), cur, node)
      decreases |rest|
    {
      ghost var h, t, more := Now(ns), rest[0], rest[1..];
      assert rest == [t] + more && t in ts;
      NextChild(old(Now(ns)), h, ts, before, t, more, old(node.list), cur, node);
      Finish(cur, ns, t.kids);
      ChildFinished(old(Now(ns)), h, Now(ns), ts, before, t, more, old(node.list), node);
      before, rest := before + [t], more;
      cur := cur.next;
    }
    assert rest == [] && before == ts;
  }

  /** Finishes the levels below a node, the lower ones first: every node of the finished tree is linked to
      its next sibling, its first child and its parent. */
  method Finish(node: MenuNode, ghost ns: set<MenuNode>, ghost ts: seq<Tree>)
    requires node in ns && node !in Nodes(ts) && Nodes(ts) <= ns
    requires Linked(Now(ns), ts, node.list, null, node) && Distinct(Pre(ts)) && IfsOk(Pre(ts))
    modifies ns
    ensures Linked(Now(ns), Finished(ts), node.list, null, node)
    ensures SameOff(old(Now(ns)), Now(ns), Nodes(ts) + {node}) && node.next == old(node.next) &&
        node.parent == old(node.parent)
    decreases ts, 1
  {
    ghost var h0 := Now(ns);
    FinishBelow(node, ns, ts);
    if node.list != null {
      ghost var h1, below := Now(ns), FinishedBelow(ts);
      FinishedBelowAmong(ts);
      FlatKeepsOrder(below);
      Flatten(node.list, ns, below, node);
      ghost var h2 := Now(ns);
      RemoveIfs(node, ns, Flat(below));
      SameOffTwice(h0, h1, h2, Nodes(below), Nodes(ts) + {node});
      SameOffTwice(h0, h2, Now(ns), Nodes(Flat(below)) + {node}, Nodes(ts) + {node});
    } else {
      assert FinishedBelow(ts) == [] && ts == [];
    }
  }

  /** Finishes the tree below the top node and walks over it: the nodes of the tree in definition order,
      without the if nodes. */
  method FinishAndWalk(top: MenuNode, ghost ns: set<MenuNode>, ghost ts: seq<Tree>) returns (visited: seq<MenuNode>)
    requires top in ns && top !in Nodes(ts) && Nodes(ts) <= ns && top.parent == null && top.next == null
    requires Linked(Now(ns), ts, top.list, null, top) && Distinct(Pre(ts)) && IfsOk(Pre(ts))
    modifies ns
    ensures visited == WithoutIfs(Pre(ts)) && Distinct(visited)
  {
    Finish(top, ns, ts);
    visited := NodeIter(top, ns, Finished(ts));
    FinishedOrder(ts);
    WithoutIfsAmong(Pre(ts));
  }

  /* Walking */

  /** A position in the tree: a node, the trees after it, and the position of its parent. */
  datatype Zipper = Top | At(n: MenuNode, after: seq<Tree>, up: Zipper)

  ghost function NodeAt(z: Zipper, top: MenuNode): MenuNode { if z == Top then top else z.n }

  ghost predicate Located(h: Heap, z: Zipper, top: MenuNode) {
    if z == Top then top in h && h[top].parent == null && h[top].next == null
    else
      && z.n in h && h[z.n].parent == NodeAt(z.up, top)
      && Linked(h, z.after, h[z.n].next, null, NodeAt(z.up, top))
      && Located(h, z.up, top)
  }

  /** The nodes that come after a position and its children. */
  ghost function Ahead(z: Zipper): seq<MenuNode> { if z == Top then [] else Pre(z.after) + Ahead(z.up) }

  function Depth(z: Zipper): nat { if z == Top then 0 else 1 + Depth(z.up) }

  /** The walk is at node `node`, whose children are `kids`. */
  ghost predicate Here(h: Heap, z: Zipper, kids: seq<Tree>, top: MenuNode, node: MenuNode) {
    Located(h, z, top) && node == NodeAt(z, top) && node in h && Linked(h, kids, h[node].list, null, node)
  }

  /** The first child comes next. */
  lemma GoDown(h: Heap, z: Zipper, kids: seq<Tree>, top: MenuNode, node: MenuNode)
    requires Here(h, z, kids, top, node) && kids != []
    ensures Here(h, At(kids[0].node, kids[1..], z), kids[0].kids, top, kids[0].node) && h[node].list == kids[0].node
    ensures Pre(kids) + Ahead(z) == [kids[0].node] + (Pre(kids[0].kids) + Ahead(At(kids[0].node, kids[1..], z)))
  {
    AheadSplit(kids, Ahead(z));
    assert Ahead(At(kids[0].node, kids[1..], z)) == Pre(kids[1..]) + Ahead(z);
  }

  lemma AheadSplit(ts: seq<Tree>, after: seq<MenuNode>)
    requires ts != []
    ensures Pre(ts) + after == [ts[0].node] + (Pre(ts[0].kids) + (Pre(ts[1..]) + after))
  {
    Regroup([ts[0].node], Pre(ts[0].kids), Pre(ts[1..]), after);
  }

  lemma Regroup(a: seq<MenuNode>, b: seq<MenuNode>, c: seq<MenuNode>, d: seq<MenuNode>)
    ensures (a + b + c) + d == a + (b + (c + d))
  {
  }

  /** The next sibling comes next. */
  lemma GoAcross(h: Heap, z: Zipper, top: MenuNode)
    requires Located(h, z, top) && z != Top && z.after != []
    ensures Here(h, At(z.after[0].node, z.after[1..], z.up), z.after[0].kids, top, z.after[0].node) &&
        h[z.n].next == z.after[0].node
    ensures Ahead(z) == [z.after[0].node] + (Pre(z.after[0].kids) + Ahead(At(z.after[0].node, z.after[1..], z.up)))
  {
    AheadSplit(z.after, Ahead(z.up));
    assert Ahead(At(z.after[0].node, z.after[1..], z.up)) == Pre(z.after[1..]) + Ahead(z.up);
  }

  /** Climbs to the closest ancestor that has a next node and goes there, if there is one. */
  method Climb(from: MenuNode, ghost top: MenuNode, ghost ns: set<MenuNode>, ghost at: Zipper)
    returns (next: MenuNode?, ghost z: Zipper, ghost kids: seq<Tree>)
    requires Located(Now(ns), at, top) && from == NodeAt(at, top) && from.next == null
    ensures next == null ==> Ahead(at) == []
    ensures next != null ==> Here(Now(ns), z, kids, top, next) && Ahead(at) == [next] + (Pre(kids) + Ahead(z))
  {
    var node := from;
    z, kids := at, [];
    while node.parent != null
      invariant Located(Now(ns), z, top) && node == NodeAt(z, top) && node in ns && node.next == null &&
          Ahead(z) == Ahead(at)
      decreases Depth(z)
    {
      assert z.after == [] && Ahead(z) == Ahead(z.up);
      node := node.parent;
      z := z.up;
      if node.next != null {
        GoAcross(Now(ns), z, top);
        kids := z.after[0].kids;
        z := At(z.after[0].node, z.after[1..], z.up);
        return node.next, z, kids;
      }
    }
    return null, z, kids;
  }

  /** The first child, or else the next sibling, or else the next node of the closest ancestor that has one. */
  method NextNode(node: MenuNode, ghost top: MenuNode, ghost ns: set<MenuNode>, ghost z: Zipper, ghost kids: seq<Tree>)
    returns (next: MenuNode?, ghost z': Zipper, ghost kids': seq<Tree>)
    requires Here(Now(ns), z, kids, top, node)
    ensures next == null ==> Pre(kids) + Ahead(z) == []
    ensures next != null ==>
              Here(Now(ns), z', kids', top, next) && Pre(kids) + Ahead(z) == [next] + (Pre(kids') + Ahead(z'))
  {
    if node.list != null {
      GoDown(Now(ns), z, kids, top, node);
      next := node.list;
      z', kids' := At(kids[0].node, kids[1..], z), kids[0].kids;
    } else if node.next != null {
      GoAcross(Now(ns), z, top);
      next := node.next;
      z', kids' := At(z.after[0].node, z.after[1..], z.up), z.after[0].kids;
    } else {
      next, z', kids' := Climb(node, top, ns, z);
      assert kids == [];
    }
  }

  /** Walks over the tree below the top node: each node before its children, and these before the next. */
  method NodeIter(top: MenuNode, ghost ns: set<MenuNode>, ghost ts: seq<Tree>) returns (visited: seq<MenuNode>)
    requires top in ns && top.parent == null && top.next == null && Linked(Now(ns), ts, top.list, null, top)
    ensures visited == Pre(ts)
  {
    visited := [];
    var node: MenuNode := top;
    ghost var z, kids := Top, ts;
    ghost var ahead := Pre(ts);
    while true
      invariant Here(Now(ns), z, kids, top, node) && ahead == Pre(kids) + Ahead(z)
      invariant visited + ahead == Pre(ts)
      decreases |ahead|
    {
      var next: MenuNode?;
      next, z, kids := NextNode(node, top, ns, z, kids);
      if next == null {
        return;
      }
      node := next;
      Visit(visited, node, ahead[1..]);
      visited := visited + [node];
      ahead := ahead[1..];
    }
  }

  lemma Visit(visited: seq<MenuNode>, n: MenuNode, rest: seq<MenuNode>)
    ensures visited + ([n] + rest) == visited + [n] + rest
  {
  }
}
