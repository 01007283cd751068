/** Finishing the menu tree: if nodes are removed from every level, and the walk over the result visits the
    other nodes in definition order. */
module KconfigMenuFinish {
  import opened KconfigMenu

  /* Removing if nodes */

  ghost function Kept(ts: seq<Tree>): seq<Tree> {
    if ts == [] then [] else (if ts[0].node.item == If then [] else [ts[0]]) + Kept(ts[1..])
  }

  /** Skips the if nodes at the start of a list. */
  method SkipIfs(first: MenuNode?, ghost ns: set<MenuNode>, ghost ts: seq<Tree>, ghost parent: MenuNode?)
    returns (cur: MenuNode?, ghost rest: seq<Tree>)
    requires Nodes(ts) <= ns && Linked(Now(ns), ts, first, null, parent)
    ensures Linked(Now(ns), rest, cur, null, parent) && Kept(rest) == Kept(ts) &&
        (rest != [] ==> rest[0].node.item != If)
    ensures exists skipped :: ts == skipped + rest
  {
    cur := first;
    ghost var skipped: seq<Tree> := [];
    rest := ts;
    while cur != null && cur.item == If
      invariant Linked(Now(ns), rest, cur, null, parent) && Kept(rest) == Kept(ts) && ts == skipped + rest
      decreases |rest|
    {
      assert cur in Pre(rest);
      PreConcat(skipped, rest);
      skipped, rest := skipped + [rest[0]], rest[1..];
      cur := cur.next;
    }
  }

  /** The trees `done` are kept and end at node `cur`; the others start there with one that is kept. */
  ghost predicate Removing(h: Heap, ts: seq<Tree>, done: seq<Tree>, rest: seq<Tree>, first: MenuNode?, cur: MenuNode?,
          parent: MenuNode?) {
    && Linked(h, done, first, cur, parent) && Linked(h, rest, cur, null, parent)
    && done + Kept(rest) == Kept(ts) && (rest != [] ==> rest[0].node.item != If)
    && Distinct(Pre(done + rest)) && Nodes(done + rest) <= Nodes(ts)
  }

  /** The current node gets another successor. */
  lemma Rejoined(h: Heap, done: seq<Tree>, t: Tree, skipped: seq<Tree>, more: seq<Tree>, first: MenuNode?,
          next: MenuNode?, parent: MenuNode?)
    requires Distinct(Pre(done + ([t] + (skipped + more))))
    requires Linked(h, done, first, t.node, parent) && Linked(h, [t] + (skipped + more), t.node, null, parent)
    requires Linked(h, more, next, null, parent)
    ensures t.node in h && Linked(WithNext(h, t.node, next), done + [t], first, next, parent)
    ensures Linked(WithNext(h, t.node, next), more, next, null, parent)
  {
    var n, rest := t.node, [t] + (skipped + more);
    assert rest[1..] == skipped + more;
    PreConcat(done, rest);
    PreConcat(skipped, more);
    DistinctParts(Pre(done), Pre(rest));
    DistinctFirst(rest);
    assert n in Pre(rest);
    var h' := WithNext(h, n, next);
    Stays(h, h', done, first, n, parent);
    Stays(h, h', t.kids, h[n].list, null, n);
    Stays(h, h', more, next, null, parent);
    assert Linked(h', [t][1..], next, next, parent);
    LinkedConcat(h', done, [t], first, n, next, parent);
  }

  /** The next node that is kept follows the current one. */
  lemma Removed(h: Heap, ts: seq<Tree>, done: seq<Tree>, t: Tree, skipped: seq<Tree>, more: seq<Tree>,
          first: MenuNode?, next: MenuNode?, parent: MenuNode?)
    requires Removing(h, ts, done, [t] + (skipped + more), first, t.node, parent)
    requires Linked(h, more, next, null, parent) && Kept(more) == Kept(skipped + more) &&
        (more != [] ==> more[0].node.item != If)
    ensures t.node in h && t.node in Nodes(ts)
    ensures Removing(WithNext(h, t.node, next), ts, done + [t], more, first, next, parent)
  {
    var rest := [t] + (skipped + more);
    Rejoined(h, done, t, skipped, more, first, next, parent);
    assert done + rest == (done + [t]) + skipped + more;
    DropMiddle(done + [t], skipped, more);
    assert t.node in Nodes(ts) by {
      PreConcat(done, rest);
      assert t.node in Pre(rest);
    }
    assert done + Kept(rest) == done + [t] + Kept(more) by {
      assert rest[1..] == skipped + more;
      assert done + ([t] + Kept(more)) == done + [t] + Kept(more);
    }
  }

  lemma DistinctDrop(x: seq<MenuNode>, y: seq<MenuNode>, z: seq<MenuNode>)
    requires Distinct(x + y + z)
    ensures Distinct(x + z)
  {
    var all, some := x + y + z, x + z;
    forall i, j | 0 <= i < j < |some|
      ensures some[i] != some[j]
    {
      var k, l := if i < |x| then i else i + |y|, if j < |x| then j else j + |y|;
      assert all[k] == some[i] && all[l] == some[j];
    }
  }

  lemma DropMiddle(a: seq<Tree>, b: seq<Tree>, c: seq<Tree>)
    requires Distinct(Pre(a + b + c))
    ensures Distinct(Pre(a + c)) && Nodes(a + c) <= Nodes(a + b + c)
  {
    PreConcat(a + b, c);
    PreConcat(a, b);
    PreConcat(a, c);
    DistinctDrop(Pre(a), Pre(b), Pre(c));
  }

  /** Removes the if nodes from the children of a node. */
  method RemoveIfs(node: MenuNode, ghost ns: set<MenuNode>, ghost ts: seq<Tree>)
    requires Nodes(ts) <= ns && node in ns && node !in Nodes(ts)
    requires Linked(Now(ns), ts, node.list, null, node) && Distinct(Pre(ts))
    modifies ns
    ensures Linked(Now(ns), Kept(ts), node.list, null, node)
    ensures SameOff(old(Now(ns)), Now(ns), Nodes(ts) + {node}) && node.next == old(node.next) &&
        node.parent == old(node.parent)
  {
    ghost var h0 := Now(ns);
    var cur: MenuNode?;
    ghost var done: seq<Tree>, rest: seq<Tree> := [], ts;
    cur, rest := SkipIfs(node.list, ns, ts, node);
    ghost var skipped :| ts == skipped + rest;
    node.list := cur;
    StartsRemoving(h0, Now(ns), ts, skipped, rest, node, cur);
    while cur != null
      invariant Removing(Now(ns), ts, done, rest, node.list, cur, node)
      invariant SameOff(h0, Now(ns), Nodes(ts) + {node}) && node.next == old(node.next) &&
          node.parent == old(node.parent)
      decreases |rest|
    {
      done, rest, cur := KeepOne(node, cur, ns, ts, done, rest);
    }
    assert rest == [] && done + Kept([]) == done;
  }

  lemma StartsRemoving(h0: Heap, h: Heap, ts: seq<Tree>, skipped: seq<Tree>, rest: seq<Tree>, node: MenuNode,
          cur: MenuNode?)
    requires Distinct(Pre(ts)) && node !in Nodes(ts) && ts == skipped + rest && Kept(rest) == Kept(ts)
    requires Linked(h0, rest, cur, null, node) && SameOff(h0, h, {node}) && (rest != [] ==> rest[0].node.item != If)
    ensures Removing(h, ts, [], rest, cur, cur, node)
  {
    PreConcat(skipped, rest);
    DistinctParts(Pre(skipped), Pre(rest));
    Stays(h0, h, rest, cur, null, node);
    assert [] + rest == rest && [] + Kept(rest) == Kept(rest);
  }

  method SetNext(cur: MenuNode, next: MenuNode?, ghost ns: set<MenuNode>)
    requires cur in ns
    modifies cur`next
    ensures Now(ns) == WithNext(old(Now(ns)), cur, next)
  {
    cur.next := next;
  }

  /** Keeps the current node and links it to the next one that is kept. */
  method KeepOne(node: MenuNode, cur: MenuNode, ghost ns: set<MenuNode>, ghost ts: seq<Tree>, ghost done: seq<Tree>,
          ghost rest: seq<Tree>)
    returns (ghost done': seq<Tree>, ghost rest': seq<Tree>, next: MenuNode?)
    requires Nodes(ts) <= ns && node in ns && node !in Nodes(ts)
    requires Removing(Now(ns), ts, done, rest, node.list, cur, node)
    modifies ns
    ensures Removing(Now(ns), ts, done', rest', node.list, next, node) && |rest'| < |rest|
    ensures SameOff(old(Now(ns)), Now(ns), Nodes(ts))
  {
    ghost var h, t := Now(ns), rest[0];
    PreConcat(done, rest);
    next, rest' := SkipIfs(cur.next, ns, rest[1..], node);
    ghost var gone :| rest[1..] == gone + rest';
    assert rest == [t] + (gone + rest');
    Removed(h, ts, done, t, gone, rest', node.list, next, node);
    SetNext(cur, next, ns);
    done' := done + [t];
  }

  /* Finishing */

  /** A list of nodes without the if nodes. */
  ghost function WithoutIfs(ns: seq<MenuNode>): seq<MenuNode> {
    if ns == [] then [] else (if ns[0].item == If then [] else [ns[0]]) + WithoutIfs(ns[1..])
  }

  ghost predicate NoIfs(ns: seq<MenuNode>) { forall i :: 0 <= i < |ns| ==> ns[i].item != If }

  /** If nodes have no prompt. */
  ghost predicate IfsOk(ns: seq<MenuNode>) { forall i :: 0 <= i < |ns| && ns[i].item == If ==> !ns[i].prompt }

  lemma {:induction false} WithoutIfsConcat(a: seq<MenuNode>, b: seq<MenuNode>)
    ensures WithoutIfs(a + b) == WithoutIfs(a) + WithoutIfs(b)
  {
    if a == [] {
      assert a + b == b;
    } else {
      assert (a + b)[1..] == a[1..] + b;
      WithoutIfsConcat(a[1..], b);
    }
  }

  lemma {:induction false} NothingToRemove(ns: seq<MenuNode>)
    requires NoIfs(ns)
    ensures WithoutIfs(ns) == ns
  {
    if ns != [] {
      NothingToRemove(ns[1..]);
    }
  }

  /** The levels below are finished: no child has an if node below it. */
  ghost predicate BelowFinished(ts: seq<Tree>) { forall i :: 0 <= i < |ts| ==> NoIfs(Pre(ts[i].kids)) }

  lemma {:induction false} NoIfsBelow(ts: seq<Tree>)
    requires NoIfs(Pre(ts))
    ensures BelowFinished(ts)
  {
    if ts != [] {
      var n, k, r := [ts[0].node], Pre(ts[0].kids), Pre(ts[1..]);
      assert forall i :: 0 <= i < |k| ==> (n + k + r)[1 + i] == k[i];
      assert forall i :: 0 <= i < |r| ==> (n + k + r)[1 + |k| + i] == r[i];
      NoIfsBelow(ts[1..]);
    }
  }

  lemma BelowConcat(a: seq<Tree>, b: seq<Tree>)
    requires BelowFinished(a) && BelowFinished(b)
    ensures BelowFinished(a + b)
  {
  }

  /** After flattening, if nodes have no children, and still no if node is below another node. */
  lemma {:induction false} FlatIfs(ts: seq<Tree>)
    requires BelowFinished(ts) && IfsOk(Pre(ts))
    ensures BelowFinished(Flat(ts))
    ensures forall i :: 0 <= i < |Flat(ts)| && Flat(ts)[i].node.item == If ==> Flat(ts)[i].kids == []
    decreases |Pre(ts)|
  {
    if ts != [] {
      var t, more := ts[0], ts[1..];
      assert ts == [t] + more && Pre(ts)[0] == t.node;
      PreConcat(t.kids, more);
      assert forall i :: 0 <= i < |Pre(t.kids + more)| ==> Pre(ts)[1 + i] == Pre(t.kids + more)[i];
      if GivesUp(t) {
        NoIfsBelow(t.kids);
        BelowConcat(t.kids, more);
        FlatIfs(t.kids + more);
      } else {
        assert forall i :: 0 <= i < |Pre(more)| ==> Pre(ts)[1 + |Pre(t.kids)| + i] == Pre(more)[i];
        FlatIfs(more);
      }
    }
  }

  /** Removing if nodes without children from the top removes them from the definition order. */
  lemma {:induction false} KeptOrder(ts: seq<Tree>)
    requires BelowFinished(ts) && forall i :: 0 <= i < |ts| && ts[i].node.item == If ==> ts[i].kids == []
    ensures Pre(Kept(ts)) == WithoutIfs(Pre(ts))
  {
    if ts != [] {
      var t, more := ts[0], ts[1..];
      var k, r := Pre(t.kids), Pre(more);
      assert forall i :: 0 <= i < |more| ==> more[i] == ts[i + 1];
      KeptOrder(more);
      NothingToRemove(k);
      assert WithoutIfs([t.node] + k + r) == WithoutIfs([t.node]) + k + WithoutIfs(r) by {
        WithoutIfsConcat([t.node] + k, r);
        WithoutIfsConcat([t.node], k);
      }
      assert [t.node][1..] == [] && WithoutIfs([t.node]) == if t.node.item == If then [] else [t.node];
      if t.node.item == If {
        assert k == [] && Kept(ts) == Kept(more);
      } else {
        assert Kept(ts) == [t] + Kept(more) && Kept(ts)[1..] == Kept(more);
      }
    }
  }

  lemma {:induction false} NoneLeft(ns: seq<MenuNode>)
    ensures NoIfs(WithoutIfs(ns))
  {
    if ns != [] {
      NoneLeft(ns[1..]);
    }
  }

  /** Flattening and removing leaves the definition order, without the if nodes. */
  lemma LevelOrder(ts: seq<Tree>)
    requires BelowFinished(ts) && IfsOk(Pre(ts))
    ensures Pre(Kept(Flat(ts))) == WithoutIfs(Pre(ts)) && NoIfs(Pre(Kept(Flat(ts))))
  {
    FlatKeepsOrder(ts);
    FlatIfs(ts);
    KeptOrder(Flat(ts));
    NoneLeft(Pre(ts));
  }

  /** The tree with every level finished, the lower ones first. */
  ghost function Finished(ts: seq<Tree>): seq<Tree>
    decreases ts, 1
  {
    Kept(Flat(FinishedBelow(ts)))
  }

  ghost function FinishedBelow(ts: seq<Tree>): seq<Tree>
    decreases ts, 0
  {
    if ts == [] then [] else [Tree(ts[0].node, Finished(ts[0].kids))] + FinishedBelow(ts[1..])
  }

  /** The finished tree has the nodes of the tree in definition order, without the if nodes of any level. */
  lemma {:induction false} FinishedOrder(ts: seq<Tree>)
    requires IfsOk(Pre(ts))
    ensures Pre(Finished(ts)) == WithoutIfs(Pre(ts)) && NoIfs(Pre(Finished(ts)))
    decreases ts, 1
  {
    FinishedBelowOrder(ts);
    LevelOrder(FinishedBelow(ts));
  }

  lemma {:induction false} FinishedBelowOrder(ts: seq<Tree>)
    requires IfsOk(Pre(ts))
    ensures var b := FinishedBelow(ts); BelowFinished(b) && IfsOk(Pre(b)) && WithoutIfs(Pre(b)) == WithoutIfs(Pre(ts))
    decreases ts, 0
  {
    if ts != [] {
      var t, more := ts[0], ts[1..];
      FirstIfs(ts);
      FinishedOrder(t.kids);
      FinishedBelowOrder(more);
      var t', more' := Tree(t.node, Finished(t.kids)), FinishedBelow(more);
      assert FinishedBelow(ts) == [t'] + more' && ([t'] + more')[1..] == more';
      FirstWithoutIfs(ts);
      FirstWithoutIfs([t'] + more');
      NothingToRemove(Pre(t'.kids));
      assert IfsOk(Pre([t'] + more'));
    }
  }

  lemma FirstIfs(ts: seq<Tree>)
    requires ts != [] && IfsOk(Pre(ts))
    ensures IfsOk(Pre(ts[0].kids)) && IfsOk(Pre(ts[1..])) && (ts[0].node.item == If ==> !ts[0].node.prompt)
  {
    var n, k, r := [ts[0].node], Pre(ts[0].kids), Pre(ts[1..]);
    var all := Pre(ts);
    assert all == n + k + r && all[0] == ts[0].node;
    assert forall i :: 0 <= i < |k| ==> all[1 + i] == k[i];
    assert forall i :: 0 <= i < |r| ==> all[1 + |k| + i] == r[i];
  }

  lemma FirstWithoutIfs(ts: seq<Tree>)
    requires ts != []
    ensures WithoutIfs(Pre(ts)) == WithoutIfs([ts[0].node]) + WithoutIfs(Pre(ts[0].kids)) + WithoutIfs(Pre(ts[1..]))
  {
    WithoutIfsConcat([ts[0].node] + Pre(ts[0].kids), Pre(ts[1..]));
    WithoutIfsConcat([ts[0].node], Pre(ts[0].kids));
  }
}
