/** Which node is the parent of which when a menu tree has been flattened and finished. */
module KconfigMenuParents {
  import opened KconfigMenu
  import opened KconfigMenuFinish

  /** The node shows a menu or choice of its own, which others are below: it has a prompt, or is a choice. */
  predicate Firm(n: MenuNode) { n.prompt || n.item == Choice }

  /* Parents and paths */

  /** Node `n` is in the trees, whose parent is `top`, and its parent is `p`. */
  ghost predicate Below(ts: seq<Tree>, top: MenuNode, n: MenuNode, p: MenuNode)
    decreases ts
  {
    && ts != []
    && (|| (n == ts[0].node && p == top)
        || Below(ts[0].kids, ts[0].node, n, p)
        || Below(ts[1..], top, n, p))
  }

  /** The nodes on the way from the top of the trees down to node `n`, without it: its ancestors. */
  ghost predicate Path(ts: seq<Tree>, path: seq<MenuNode>, n: MenuNode)
    decreases ts
  {
    && ts != []
    && (|| (if path == [] then n == ts[0].node else path[0] == ts[0].node && Path(ts[0].kids, path[1..], n))
        || Path(ts[1..], path, n))
  }

  /** The last of the ancestors, or the top node. */
  predicate Closest(path: seq<MenuNode>, top: MenuNode, p: MenuNode) {
    if path == [] then p == top else p == path[|path| - 1]
  }

  /** The last firm one of the ancestors, or the top node if none is firm. */
  ghost predicate ClosestFirm(path: seq<MenuNode>, top: MenuNode, p: MenuNode) {
    || ((forall i :: 0 <= i < |path| ==> !Firm(path[i])) && p == top)
    || (exists i :: 0 <= i < |path| && p == path[i] && Firm(p) && forall j :: i < j < |path| ==> !Firm(path[j]))
  }

  /** The closest ancestor is the parent. */
  lemma {:induction false} ParentIsClosest(ts: seq<Tree>, top: MenuNode, n: MenuNode, p: MenuNode)
    ensures Below(ts, top, n, p) <==> exists path :: Path(ts, path, n) && Closest(path, top, p)
    decreases ts
  {
    if ts != [] {
      var t, more := ts[0], ts[1..];
      ParentIsClosest(t.kids, t.node, n, p);
      ParentIsClosest(more, top, n, p);
      if n == t.node && p == top {
        assert Path(ts, [], n) && Closest([], top, p);
      } else if Below(t.kids, t.node, n, p) {
        var path :| Path(t.kids, path, n) && Closest(path, t.node, p);
        LongerPath(ts, path, n);
        assert Closest([t.node] + path, top, p);
      } else if Below(more, top, n, p) {
        var path :| Path(more, path, n) && Closest(path, top, p);
        assert Path(ts, path, n);
      }
      forall path | Path(ts, path, n) && Closest(path, top, p)
        ensures Below(ts, top, n, p)
      {
        if path != [] && Path(t.kids, path[1..], n) && path[0] == t.node {
          assert Closest(path[1..], t.node, p);
        }
      }
    }
  }

  lemma LongerPath(ts: seq<Tree>, path: seq<MenuNode>, n: MenuNode)
    requires ts != [] && Path(ts[0].kids, path, n)
    ensures Path(ts, [ts[0].node] + path, n)
  {
    assert ([ts[0].node] + path)[1..] == path;
  }

  /* Flattening one level */

  /** The parent of `n` after flattening: the top node if no ancestor is firm, and else the one it had. */
  ghost predicate AfterFlat(ts: seq<Tree>, top: MenuNode, n: MenuNode, p: MenuNode)
    decreases ts
  {
    && ts != []
    && (|| (n == ts[0].node && p == top)
        || (if Firm(ts[0].node) then Below(ts[0].kids, ts[0].node, n, p) else AfterFlat(ts[0].kids, top, n, p))
        || AfterFlat(ts[1..], top, n, p))
  }

  lemma {:induction false} AfterFlatConcat(a: seq<Tree>, b: seq<Tree>, top: MenuNode, n: MenuNode, p: MenuNode)
    ensures AfterFlat(a + b, top, n, p) <==> AfterFlat(a, top, n, p) || AfterFlat(b, top, n, p)
    decreases |a|
  {
    if a == [] {
      assert a + b == b;
    } else {
      assert (a + b)[1..] == a[1..] + b;
      AfterFlatConcat(a[1..], b, top, n, p);
    }
  }

  lemma {:induction false} FlatBelow(ts: seq<Tree>, top: MenuNode, n: MenuNode, p: MenuNode)
    ensures Below(Flat(ts), top, n, p) <==> AfterFlat(ts, top, n, p)
    decreases |Pre(ts)|
  {
    if ts != [] {
      var t, more := ts[0], ts[1..];
      assert ts == [t] + more;
      FlatStep(t, more);
      if t.kids != [] && !Firm(t.node) {
        FlatBelow(t.kids + more, top, n, p);
        AfterFlatConcat(t.kids, more, top, n, p);
        BelowCons(Tree(t.node, []), Flat(t.kids + more), top, n, p);
      } else {
        FlatBelow(more, top, n, p);
        BelowCons(t, Flat(more), top, n, p);
      }
    }
  }

  lemma BelowCons(t: Tree, rest: seq<Tree>, top: MenuNode, n: MenuNode, p: MenuNode)
    ensures Below([t] + rest, top, n, p) <==>
        (n == t.node && p == top) || Below(t.kids, t.node, n, p) || Below(rest, top, n, p)
  {
    assert ([t] + rest)[1..] == rest;
  }

  predicate NoneFirm(path: seq<MenuNode>) { forall i :: 0 <= i < |path| ==> !Firm(path[i]) }

  /** Who gets which parent when one level is flattened: nodes without a firm ancestor in the level come to
      its top, and all others stay where they are. */
  lemma {:induction false} FlattenedParents(ts: seq<Tree>, top: MenuNode, n: MenuNode, p: MenuNode)
    ensures Below(Flat(ts), top, n, p) <==>
        exists path :: Path(ts, path, n) && if NoneFirm(path) then p == top else Closest(path, top, p)
  {
    FlatBelow(ts, top, n, p);
    AfterFlatPath(ts, top, n, p);
  }

  predicate FlatHome(path: seq<MenuNode>, top: MenuNode, p: MenuNode) {
    if NoneFirm(path) then p == top else Closest(path, top, p)
  }

  lemma {:induction false} AfterFlatPath(ts: seq<Tree>, top: MenuNode, n: MenuNode, p: MenuNode)
    ensures AfterFlat(ts, top, n, p) <==> exists path :: Path(ts, path, n) && FlatHome(path, top, p)
    decreases ts
  {
    if ts != [] {
      var t, more := ts[0], ts[1..];
      AfterFlatPath(more, top, n, p);
      ParentIsClosest(t.kids, t.node, n, p);
      AfterFlatPath(t.kids, top, n, p);
      if n == t.node && p == top {
        assert Path(ts, [], n) && FlatHome([], top, p);
      } else if Firm(t.node) && Below(t.kids, t.node, n, p) {
        var path :| Path(t.kids, path, n) && Closest(path, t.node, p);
        LongerPath(ts, path, n);
        LongerHome(t.node, path, top, p);
      } else if !Firm(t.node) && AfterFlat(t.kids, top, n, p) {
        var path :| Path(t.kids, path, n) && FlatHome(path, top, p);
        LongerPath(ts, path, n);
        LongerHome(t.node, path, top, p);
      } else if AfterFlat(more, top, n, p) {
        var path :| Path(more, path, n) && FlatHome(path, top, p);
        assert Path(ts, path, n);
      }
      forall path | Path(ts, path, n) && FlatHome(path, top, p)
        ensures AfterFlat(ts, top, n, p)
      {
        if path != [] && Path(t.kids, path[1..], n) && path[0] == t.node {
          LongerHome(t.node, path[1..], top, p);
          assert [t.node] + path[1..] == path;
        }
      }
    }
  }

  lemma LongerHome(m: MenuNode, path: seq<MenuNode>, top: MenuNode, p: MenuNode)
    ensures Firm(m) ==> (FlatHome([m] + path, top, p) <==> Closest(path, m, p))
    ensures !Firm(m) ==> (FlatHome([m] + path, top, p) <==> FlatHome(path, top, p))
  {
    var all := [m] + path;
    assert all[0] == m && forall i :: 0 <= i < |path| ==> all[i + 1] == path[i];
    if !Firm(m) && NoneFirm(path) {
      assert NoneFirm(all);
    }
    if !NoneFirm(path) {
      var i :| 0 <= i < |path| && Firm(path[i]);
      assert Firm(all[i + 1]);
    }
  }

  /* Finishing all levels */

  /** The closest firm ancestor of `n`, or the top node. */
  ghost predicate FirmParent(ts: seq<Tree>, top: MenuNode, n: MenuNode, p: MenuNode)
    decreases ts
  {
    && ts != []
    && (|| (n == ts[0].node && p == top)
        || FirmParent(ts[0].kids, if Firm(ts[0].node) then ts[0].node else top, n, p)
        || FirmParent(ts[1..], top, n, p))
  }

  /** Only firm nodes have children. */
  ghost predicate Settled(ts: seq<Tree>)
    decreases ts
  {
    ts == [] || ((Firm(ts[0].node) || ts[0].kids == []) && Settled(ts[0].kids) && Settled(ts[1..]))
  }

  ghost predicate BelowSettled(ts: seq<Tree>) { forall i :: 0 <= i < |ts| ==> Settled(ts[i].kids) }

  lemma {:induction false} SettledParents(ts: seq<Tree>, top: MenuNode, n: MenuNode, p: MenuNode)
    requires Settled(ts)
    ensures FirmParent(ts, top, n, p) <==> Below(ts, top, n, p)
    decreases ts
  {
    if ts != [] {
      SettledParents(ts[0].kids, ts[0].node, n, p);
      SettledParents(ts[1..], top, n, p);
    }
  }

  lemma {:induction false} SettledConcat(a: seq<Tree>, b: seq<Tree>)
    ensures Settled(a + b) <==> Settled(a) && Settled(b)
    decreases |a|
  {
    if a == [] {
      assert a + b == b;
    } else {
      assert (a + b)[1..] == a[1..] + b;
      SettledConcat(a[1..], b);
    }
  }

  lemma {:induction false} SettledBelow(ts: seq<Tree>)
    requires Settled(ts)
    ensures BelowSettled(ts)
  {
    if ts != [] {
      SettledBelow(ts[1..]);
      assert forall i :: 1 <= i < |ts| ==> ts[i] == ts[1..][i - 1];
    }
  }

  /** Flattening a level settles it if the levels below are. */
  lemma {:induction false} FlatSettles(ts: seq<Tree>)
    requires BelowSettled(ts)
    ensures Settled(Flat(ts))
    decreases |Pre(ts)|
  {
    if ts != [] {
      var t, more := ts[0], ts[1..];
      assert ts == [t] + more && Settled(t.kids);
      assert forall i :: 0 <= i < |more| ==> more[i] == ts[i + 1];
      FlatStep(t, more);
      if t.kids != [] && !Firm(t.node) {
        SettledBelow(t.kids);
        FlatSettles(t.kids + more);
        SettledCons(Tree(t.node, []), Flat(t.kids + more));
      } else {
        FlatSettles(more);
        SettledCons(t, Flat(more));
      }
    }
  }

  lemma SettledCons(t: Tree, rest: seq<Tree>)
    requires (Firm(t.node) || t.kids == []) && Settled(t.kids) && Settled(rest)
    ensures Settled([t] + rest)
  {
    assert ([t] + rest)[1..] == rest;
  }

  lemma {:induction false} KeptSettled(ts: seq<Tree>)
    requires Settled(ts)
    ensures Settled(Kept(ts))
  {
    if ts != [] {
      KeptSettled(ts[1..]);
      if ts[0].node.item != If {
        SettledCons(ts[0], Kept(ts[1..]));
      } else {
        assert Kept(ts) == Kept(ts[1..]);
      }
    }
  }

  /** With the levels below settled, flattening brings every node to its closest firm ancestor. */
  lemma {:induction false} FlatHomes(ts: seq<Tree>, top: MenuNode, n: MenuNode, p: MenuNode)
    requires BelowSettled(ts)
    ensures AfterFlat(ts, top, n, p) <==> FirmParent(ts, top, n, p)
    decreases ts
  {
    if ts != [] {
      var t, more := ts[0], ts[1..];
      assert Settled(t.kids);
      assert forall i :: 0 <= i < |more| ==> more[i] == ts[i + 1];
      SettledParents(t.kids, t.node, n, p);
      SettledBelow(t.kids);
      FlatHomes(t.kids, top, n, p);
      FlatHomes(more, top, n, p);
    }
  }

  lemma {:induction false} BelowIsIn(ts: seq<Tree>, top: MenuNode, n: MenuNode, p: MenuNode)
    requires Below(ts, top, n, p)
    ensures n in Pre(ts)
    decreases ts
  {
    if n == ts[0].node && p == top {
    } else if Below(ts[0].kids, ts[0].node, n, p) {
      BelowIsIn(ts[0].kids, ts[0].node, n, p);
    } else {
      BelowIsIn(ts[1..], top, n, p);
    }
  }

  /** Removing if nodes that have no children leaves the parents of the other nodes. */
  lemma {:induction false} KeptParents(ts: seq<Tree>, top: MenuNode, n: MenuNode, p: MenuNode)
    requires BelowFinished(ts) && forall i :: 0 <= i < |ts| && ts[i].node.item == If ==> ts[i].kids == []
    ensures Below(Kept(ts), top, n, p) <==> Below(ts, top, n, p) && n.item != If
  {
    if ts != [] {
      var t, more := ts[0], ts[1..];
      assert forall i :: 0 <= i < |more| ==> more[i] == ts[i + 1];
      KeptParents(more, top, n, p);
      if Below(t.kids, t.node, n, p) {
        BelowIsIn(t.kids, t.node, n, p);
        var i :| 0 <= i < |Pre(t.kids)| && Pre(t.kids)[i] == n;
      }
      if t.node.item != If {
        BelowCons(t, Kept(more), top, n, p);
      } else {
        assert Kept(ts) == Kept(more);
      }
    }
  }

  /** The parents in a finished tree. */
  lemma {:induction false} FinishedFirm(ts: seq<Tree>, top: MenuNode, n: MenuNode, p: MenuNode)
    requires IfsOk(Pre(ts))
    ensures Below(Finished(ts), top, n, p) <==> FirmParent(ts, top, n, p) && n.item != If
    decreases ts, 2
  {
    var b := FinishedBelow(ts);
    FinishedBelowOrder(ts);
    FinishedBelowSettled(ts);
    if n.item != If {
      FinishedBelowFirm(ts, top, n, p);
    }
    FlatHomes(b, top, n, p);
    FlatBelow(b, top, n, p);
    FlatIfs(b);
    KeptParents(Flat(b), top, n, p);
  }

  lemma {:induction false} FinishedSettled(ts: seq<Tree>)
    requires IfsOk(Pre(ts))
    ensures Settled(Finished(ts))
    decreases ts, 1
  {
    FinishedBelowSettled(ts);
    FlatSettles(FinishedBelow(ts));
    KeptSettled(Flat(FinishedBelow(ts)));
  }

  lemma {:induction false} FinishedBelowSettled(ts: seq<Tree>)
    requires IfsOk(Pre(ts))
    ensures BelowSettled(FinishedBelow(ts))
    decreases ts, 0
  {
    if ts != [] {
      FirstIfs(ts);
      FinishedSettled(ts[0].kids);
      FinishedBelowSettled(ts[1..]);
    }
  }

  lemma {:induction false} FinishedBelowFirm(ts: seq<Tree>, top: MenuNode, n: MenuNode, p: MenuNode)
    requires IfsOk(Pre(ts)) && n.item != If
    ensures FirmParent(FinishedBelow(ts), top, n, p) <==> FirmParent(ts, top, n, p)
    decreases ts, 0
  {
    if ts != [] {
      var t, more := ts[0], ts[1..];
      FirstIfs(ts);
      var home := if Firm(t.node) then t.node else top;
      FinishedFirm(t.kids, home, n, p);
      FinishedSettled(t.kids);
      SettledParents(Finished(t.kids), home, n, p);
      FinishedBelowFirm(more, top, n, p);
      assert FinishedBelow(ts)[1..] == FinishedBelow(more);
    }
  }

  lemma {:induction false} FirmParentPath(ts: seq<Tree>, top: MenuNode, n: MenuNode, p: MenuNode)
    ensures FirmParent(ts, top, n, p) <==> exists path :: Path(ts, path, n) && ClosestFirm(path, top, p)
    decreases ts
  {
    if ts != [] {
      var t, more := ts[0], ts[1..];
      var home := if Firm(t.node) then t.node else top;
      FirmParentPath(t.kids, home, n, p);
      FirmParentPath(more, top, n, p);
      if n == t.node && p == top {
        assert Path(ts, [], n) && ClosestFirm([], top, p);
      } else if FirmParent(t.kids, home, n, p) {
        var path :| Path(t.kids, path, n) && ClosestFirm(path, home, p);
        LongerPath(ts, path, n);
        LongerFirm(t.node, path, top, p);
      } else if FirmParent(more, top, n, p) {
        var path :| Path(more, path, n) && ClosestFirm(path, top, p);
        assert Path(ts, path, n);
      }
      forall path | Path(ts, path, n) && ClosestFirm(path, top, p)
        ensures FirmParent(ts, top, n, p)
      {
        if path != [] && Path(t.kids, path[1..], n) && path[0] == t.node {
          LongerFirm(t.node, path[1..], top, p);
          assert [t.node] + path[1..] == path;
        }
      }
    }
  }

  lemma LongerFirm(m: MenuNode, path: seq<MenuNode>, top: MenuNode, p: MenuNode)
    ensures ClosestFirm([m] + path, top, p) <==> ClosestFirm(path, if Firm(m) then m else top, p)
  {
    var all, home := [m] + path, if Firm(m) then m else top;
    assert all[0] == m && forall i :: 0 <= i < |path| ==> all[i + 1] == path[i];
    if ClosestFirm(path, home, p) {
      if i :| 0 <= i < |path| && p == path[i] && Firm(p) && forall j :: i < j < |path| ==> !Firm(path[j]) {
        var next := i + 1;
        assert p == all[next] && forall j :: next < j < |all| ==> all[j] == path[j - 1];
      } else {
        assert forall j :: 0 < j < |all| ==> all[j] == path[j - 1];
        assert Firm(m) ==> p == all[0];
      }
    }
    if ClosestFirm(all, top, p) {
      if i :| 0 <= i < |all| && p == all[i] && Firm(p) && forall j :: i < j < |all| ==> !Firm(all[j]) {
        assert forall j :: i <= j < |path| ==> path[j] == all[j + 1];
        assert i > 0 ==> p == path[i - 1];
      } else {
        assert !Firm(all[0]);
      }
    }
  }

  /** In a finished tree, a node has its closest original ancestor that has a prompt or is a choice as its
      parent, or else the top node; only the if nodes are gone. */
  lemma FinishedParents(ts: seq<Tree>, top: MenuNode, n: MenuNode, p: MenuNode)
    requires IfsOk(Pre(ts))
    ensures Below(Finished(ts), top, n, p) <==>
        n.item != If && exists path :: Path(ts, path, n) && ClosestFirm(path, top, p)
  {
    FinishedFirm(ts, top, n, p);
    FirmParentPath(ts, top, n, p);
  }

  /** Nodes without a prompt that are not choices have no children in a finished tree. */
  lemma OnlyFirmHaveChildren(ts: seq<Tree>, top: MenuNode, n: MenuNode, p: MenuNode)
    requires IfsOk(Pre(ts)) && Below(Finished(ts), top, n, p)
    ensures p == top || Firm(p)
  {
    FinishedParents(ts, top, n, p);
  }

  /* Links */

  /** Linked trees have their parents as parent links. */
  lemma {:induction false} LinkedParents(h: Heap, ts: seq<Tree>, first: MenuNode?, end: MenuNode?, top: MenuNode,
          n: MenuNode, p: MenuNode)
    requires Linked(h, ts, first, end, top) && Below(ts, top, n, p)
    ensures n in h && h[n].parent == p
    decreases ts
  {
    if n == ts[0].node && p == top {
    } else if Below(ts[0].kids, ts[0].node, n, p) {
      LinkedParents(h, ts[0].kids, h[ts[0].node].list, null, ts[0].node, n, p);
    } else {
      LinkedParents(h, ts[1..], h[ts[0].node].next, end, top, n, p);
    }
  }

  /** The parent link of every node leads to its closest ancestor that has a prompt or is a choice. */
  lemma FinishedLinks(h: Heap, ts: seq<Tree>, first: MenuNode?, top: MenuNode, path: seq<MenuNode>, n: MenuNode,
          p: MenuNode)
    requires IfsOk(Pre(ts)) && Linked(h, Finished(ts), first, null, top)
    requires Path(ts, path, n) && n.item != If && ClosestFirm(path, top, p)
    ensures n in h && h[n].parent == p
  {
    FinishedParents(ts, top, n, p);
    LinkedParents(h, Finished(ts), first, null, top, n, p);
  }
}
